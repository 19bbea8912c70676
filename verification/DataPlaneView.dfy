/**
 The data plane's worker view: a snapshot is applied in place, so that Worker objects, their in-flight
 counts and their counters survive refreshes. Replaced and deleted objects that ever carried a
 request are kept on the retiring list until the control plane accepted their final counters.
 */
module DataPlaneView {
  import opened RouterTypes
  import opened Workers

  /** One row of a published snapshot; an empty incarnation means the writer did not state one. */
  datatype SnapshotWorker = SnapshotWorker(
    url: WorkerId, config: Config, incarnation: string, health: Health, disabled: bool)

  predicate Names(entries: seq<SnapshotWorker>, url: WorkerId) {
    exists i :: 0 <= i < |entries| && entries[i].url == url
  }

  /** A later row for the same url overrides an earlier one. */
  function LastRow(entries: seq<SnapshotWorker>, url: WorkerId): (row: SnapshotWorker)
    requires Names(entries, url)
    ensures exists i :: 0 <= i < |entries| && entries[i] == row && row.url == url
                        && forall j :: i < j < |entries| ==> entries[j].url != url
    decreases |entries|
  {
    var n := |entries| - 1;
    if entries[n].url == url then entries[n] else assert Names(entries[..n], url); LastRow(entries[..n], url)
  }

  /** Every row for `url` speaks of the object with this incarnation. */
  predicate SameObject(entries: seq<SnapshotWorker>, url: WorkerId, incarnation: string) {
    forall i :: 0 <= i < |entries| && entries[i].url == url ==>
      entries[i].incarnation == "" || entries[i].incarnation == incarnation
  }

  ghost predicate Shows(worker: Worker, row: SnapshotWorker)
    reads worker
  {
    && worker.config == row.config && worker.health == row.health && worker.disabled == row.disabled
    && (row.incarnation != "" ==> worker.incarnation == row.incarnation)
  }

  predicate Distinct<T(==)>(s: seq<T>) {
    forall i, j :: 0 <= i < j < |s| ==> s[i] != s[j]
  }

  lemma DistinctTogether<T>(a: seq<T>, b: seq<T>)
    requires Distinct(a) && Distinct(b) && forall x :: x in a ==> x !in b
    ensures Distinct(a + b)
  {
    forall i, j | 0 <= i < j < |a + b| ensures (a + b)[i] != (a + b)[j] {
      if i < |a| <= j {
        assert (a + b)[i] in a && (a + b)[j] in b;
      }
    }
  }

  ghost predicate Busy(worker: Worker)
    reads worker`active, worker`counters
  {
    worker.active > 0 || Get(worker.counters, Overall(Routed)) > 0
  }

  /** What the objects of `ws` counted for worker `url`. */
  ghost function CountedBy(ws: seq<Worker>, url: WorkerId, key: CounterKey): nat
    reads ws`counters
  {
    if ws == [] then 0
    else CountedBy(ws[..|ws| - 1], url, key) + CountedByOne(ws[|ws| - 1], url, key)
  }

  ghost function CountedByOne(worker: Worker, url: WorkerId, key: CounterKey): nat
    reads worker`counters
  {
    if worker.url == url then Get(worker.counters, key) else 0
  }

  /** What the view was before a snapshot was applied. */
  datatype Before = Before(
    workers: map<WorkerId, Worker>, incarnations: map<WorkerId, string>, busy: set<Worker>, retiring: seq<Worker>)

  /** One turn of the loop over the rows, seen from one url. */
  datatype Turn = Turn(before: Before, entries: seq<SnapshotWorker>, i: nat, url: WorkerId) {
    ghost predicate Valid() { i < |entries| }
    ghost function Row(): SnapshotWorker requires Valid() { entries[i] }
    ghost function Seen(): seq<SnapshotWorker> requires Valid() { entries[..i] }
    ghost function SeenNext(): seq<SnapshotWorker> requires Valid() { entries[..i + 1] }
  }

  /** An object nothing was ever routed to. */
  ghost predicate NeverUsed(worker: Worker)
    reads worker`active, worker`counters
  {
    worker.active == 0 && worker.counters == map[]
  }

  class DataPlaneWorkerView {
    var workers: map<WorkerId, Worker>
    var retiring: seq<Worker>
    var lastAppliedSeq: nat
    var lastAppliedEpoch: string

    constructor ()
      ensures Valid() && workers == map[] && retiring == [] && lastAppliedSeq == 0 && lastAppliedEpoch == ""
    {
      workers, retiring, lastAppliedSeq, lastAppliedEpoch := map[], [], 0, "";
    }

    ghost function Objects(): set<Worker>
      reads this`workers, this`retiring
    {
      workers.Values + set w | w in retiring
    }

    ghost predicate FiledByUrl()
      reads this`workers
    {
      forall url :: url in workers ==> workers[url].url == url
    }

    /** Live objects are filed under their own url, none is also retiring, and all counters balance. */
    ghost predicate Valid()
      reads this`workers, this`retiring, Objects()`counters
    {
      && (forall url :: url in workers ==> workers[url].url == url && workers[url] !in retiring)
      && Distinct(retiring)
      && (forall url :: url in workers ==> Balanced(workers[url].counters))
      && (forall w :: w in retiring ==> Balanced(w.counters))
    }

    /** Everything held for one worker, live and retiring. */
    ghost function Held(url: WorkerId, key: CounterKey): nat
      reads this`workers, this`retiring, Objects()`counters
    {
      CountedBy(retiring, url, key) + if url in workers then CountedByOne(workers[url], url, key) else 0
    }

    /** What a flush reports: the routable view and everything still draining. */
    method ReportableWorkers() returns (ws: seq<Worker>)
      requires Valid()
      ensures Distinct(ws)
      ensures forall w :: w in ws <==> w in Objects()
    {
      ws := [];
      var urls := workers.Keys;
      while urls != {}
        invariant urls <= workers.Keys
        invariant Distinct(ws)
        invariant forall w :: w in ws <==> w in workers.Values && w.url !in urls
      {
        var url :| url in urls;
        ws := ws + [workers[url]];
        urls := urls - {url};
      }
      forall w | w in ws ensures w !in retiring {
        assert workers[w.url] == w;
      }
      DistinctTogether(ws, retiring);
      ws := ws + retiring;
    }

    method DrainedRetired() returns (ws: seq<Worker>)
      ensures forall w :: w in ws <==> w in retiring && w.active == 0
    {
      ws := [];
      for i := 0 to |retiring|
        invariant forall w :: w in ws <==> w in retiring[..i] && w.active == 0
      {
        if retiring[i].active == 0 {
          ws := ws + [retiring[i]];
        }
      }
      assert retiring[..|retiring|] == retiring;
    }

    /** Drops the reported objects from the retiring list. */
    method ReleaseRetired(reported: seq<Worker>)
      requires Valid()
      modifies this`retiring
      ensures Valid()
      ensures forall w :: w in retiring <==> w in old(retiring) && w !in reported
    {
      ghost var all := retiring;
      var kept := [];
      for i := 0 to |retiring|
        invariant retiring == all
        invariant Distinct(kept)
        invariant forall w :: w in kept <==> w in all[..i] && w !in reported
      {
        if retiring[i] !in reported {
          kept := kept + [retiring[i]];
        }
      }
      assert all[..|all|] == all;
      retiring := kept;
    }

    /** An object that never carried a request is simply forgotten; any other one keeps being reported. */
    method Retire(worker: Worker)
      modifies this`retiring
      ensures retiring == old(retiring) + if Busy(worker) then [worker] else []
      ensures Busy(worker) <==> worker.active > 0 || Get(worker.counters, Overall(Routed)) > 0
      ensures forall url, key :: Balanced(worker.counters) ==>
        CountedBy(retiring, url, key) == old(CountedBy(retiring, url, key)) + CountedByOne(worker, url, key)
    {
      if worker.active > 0 || Get(worker.counters, Overall(Routed)) > 0 {
        retiring := retiring + [worker];
        assert retiring[..|retiring| - 1] == old(retiring);
      } else if Balanced(worker.counters) {
        forall key { NothingRouted(worker.counters, key); }
      }
    }

    function Live(url: WorkerId): Worker
      requires url in workers
      reads this`workers, this`retiring
    {
      workers[url]
    }

    predicate SurvivesRow(row: SnapshotWorker)
      reads this, workers.Values`incarnation
    {
      row.url in workers && (row.incarnation == "" || row.incarnation == workers[row.url].incarnation)
    }

    method Refresh(row: SnapshotWorker)
      requires Valid() && SurvivesRow(row)
      modifies Live(row.url)`config, Live(row.url)`incarnation, Live(row.url)`health, Live(row.url)`disabled
      ensures Valid() && Shows(workers[row.url], row)
      ensures workers[row.url].incarnation == old(workers[row.url].incarnation)
      ensures forall url, key :: Held(url, key) == old(Held(url, key))
    {
      hide Balanced, CountedBy, CountedByOne;
      workers[row.url].config := row.config;
      if row.incarnation != "" {
        workers[row.url].incarnation := row.incarnation;
      }
      workers[row.url].health := row.health;
      workers[row.url].disabled := row.disabled;
    }

    /** Takes `url` off the routable view. */
    method Pop(url: WorkerId)
      requires Valid() && url in workers
      modifies this`workers, this`retiring
      ensures Valid()
      ensures workers == old(workers) - {url}
      ensures retiring == old(retiring) + if Busy(old(workers[url])) then [old(workers[url])] else []
      ensures forall other, key :: Held(other, key) == old(Held(other, key))
    {
      hide Balanced, CountedBy, Busy;
      Retire(workers[url]);
      workers := workers - {url};
    }

    method Add(row: SnapshotWorker)
      requires Valid() && row.url !in workers
      modifies this`workers
      ensures Valid()
      ensures row.url in workers && workers == old(workers)[row.url := workers[row.url]]
      ensures fresh(workers[row.url]) && Shows(workers[row.url], row)
      ensures workers[row.url].counters == map[] && workers[row.url].active == 0
      ensures forall url, key :: Held(url, key) == old(Held(url, key))
    {
      hide Balanced, CountedBy;
      // Without a stated incarnation a new object carries one of its own.
      var own: string := *;
      var worker := new Worker(row.url, row.config, if row.incarnation != "" then row.incarnation else own);
      BalancedEmpty();
      worker.health, worker.disabled := row.health, row.disabled;
      workers := workers[row.url := worker];
    }

    /** The live objects, their incarnations and which of them ever carried a request. */
    ghost function Now(): (b: Before)
      reads this`workers, this`retiring, workers.Values
    {
      Before(workers, map url | url in workers :: workers[url].incarnation,
             set url | url in workers && Busy(workers[url]) :: workers[url], retiring)
    }

    /** What the rows said about `url` is what the view now has for it. */
    ghost predicate UrlApplied(b: Before, entries: seq<SnapshotWorker>, url: WorkerId)
      requires b.incarnations.Keys == b.workers.Keys
      reads this`workers, this`retiring, workers.Values
    {
      && (url in workers <==> url in b.workers || Names(entries, url))
      && (url in workers && Names(entries, url) ==> Shows(workers[url], LastRow(entries, url)))
      && (url in workers ==>
            if url in b.workers && workers[url] == b.workers[url] then workers[url].incarnation == b.incarnations[url]
            else NeverUsed(workers[url]))
      && (url in b.workers ==> (workers[url] == b.workers[url] <==> SameObject(entries, url, b.incarnations[url])))
    }

    ghost predicate AllApplied(b: Before, entries: seq<SnapshotWorker>)
      reads this`workers, this`retiring, workers.Values
    {
      b.incarnations.Keys == b.workers.Keys && forall url :: UrlApplied(b, entries, url)
    }

    ghost predicate Gone(w: Worker)
      reads this`workers, this`retiring
    {
      w.url !in workers || workers[w.url] != w
    }

    /** The retiring list only grew, by the objects that left the view and ever carried a request. */
    ghost predicate RetiredSince(b: Before)
      reads this`workers, this`retiring
    {
      && |b.retiring| <= |retiring| && retiring[..|b.retiring|] == b.retiring
      && (forall w :: w in retiring ==> w in b.retiring || (w in b.busy && Gone(w)))
      && (forall w :: w in b.busy && Gone(w) ==> w in retiring)
    }

    twostate predicate Same(worker: Worker)
      reads worker
    {
      && worker.config == old(worker.config) && worker.incarnation == old(worker.incarnation)
      && worker.health == old(worker.health) && worker.disabled == old(worker.disabled)
      && worker.active == old(worker.active) && worker.counters == old(worker.counters)
    }

    /** The effect of one row on the view. */
    twostate predicate RowEffect(row: SnapshotWorker)
      reads this`workers, this`retiring, workers.Values
    {
      && row.url in workers && workers == old(workers)[row.url := workers[row.url]]
      && Shows(workers[row.url], row)
      && (forall url :: url in old(workers) && url != row.url ==> Same(workers[url]))
      && (old(SurvivesRow(row)) ==>
            && workers == old(workers) && retiring == old(retiring)
            && workers[row.url].incarnation == old(workers[row.url].incarnation)
            && workers[row.url].active == old(workers[row.url].active)
            && workers[row.url].counters == old(workers[row.url].counters))
      && (!old(SurvivesRow(row)) ==>
            && fresh(workers[row.url]) && NeverUsed(workers[row.url])
            && retiring == old(retiring) +
                 if row.url in old(workers) && old(Busy(workers[row.url])) then [old(workers[row.url])] else [])
    }

    method ApplyRow(row: SnapshotWorker)
      requires Valid()
      modifies this`workers, this`retiring
      modifies workers.Values`config, workers.Values`incarnation, workers.Values`health, workers.Values`disabled
      ensures Valid() && RowEffect(row)
      ensures forall url, key :: Held(url, key) == old(Held(url, key))
    {
      hide Valid, Held, Shows, Busy;
      assert forall url :: url in workers && url != row.url && row.url in workers ==> workers[url] != workers[row.url] by {
        Filed();
      }
      if SurvivesRow(row) {
        Refresh(row);
      } else {
        if row.url in workers {
          Pop(row.url);
        }
        Add(row);
      }
    }

    lemma Filed()
      requires Valid()
      ensures FiledByUrl()
    {
    }

    twostate lemma RowKeepsApplied(turn: Turn)
      requires turn.Valid() && turn.before.incarnations.Keys == turn.before.workers.Keys
      requires old(UrlApplied(turn.before, turn.Seen(), turn.url))
      requires RowEffect(turn.Row())
      ensures UrlApplied(turn.before, turn.SeenNext(), turn.url)
    {
      hide Names, LastRow, SameObject;
      OneMoreRow(turn.entries, turn.i, turn.url);
    }

    twostate lemma RowKeepsRetired(turn: Turn)
      requires turn.Valid() && turn.before.incarnations.Keys == turn.before.workers.Keys
      requires old(UrlApplied(turn.before, turn.Seen(), turn.Row().url))
      requires RowEffect(turn.Row())
      requires old(FiledByUrl())
      requires old(RetiredSince(turn.before))
      requires old(Remembers(turn.before))
      ensures RetiredSince(turn.before)
    {
      hide Names, LastRow, SameObject, Shows;
      var url := turn.Row().url;
      if !old(SurvivesRow(turn.Row())) && url in old(workers) && old(Busy(workers[url])) {
        assert old(workers[url]) in turn.before.busy;
      }
    }

    ghost predicate Remembers(b: Before)
      reads b.workers.Values`active, b.workers.Values`counters
    {
      && b.incarnations.Keys == b.workers.Keys
      && (forall w :: w in b.busy ==> w.url in b.workers && w == b.workers[w.url] && Busy(w))
      && (forall w :: w in b.workers.Values && Busy(w) ==> w in b.busy)
    }

    twostate lemma RowKeepsAll(turn: Turn)
      requires turn.Valid()
      requires old(AllApplied(turn.before, turn.Seen()))
      requires RowEffect(turn.Row())
      requires old(FiledByUrl())
      requires old(RetiredSince(turn.before))
      requires old(Remembers(turn.before))
      ensures AllApplied(turn.before, turn.SeenNext()) && RetiredSince(turn.before)
      ensures forall w :: w in workers.Values ==> w in old(workers.Values) || fresh(w)
    {
      hide Shows, Busy, Names, LastRow, SameObject, RetiredSince, Valid, SurvivesRow;
      forall url ensures UrlApplied(turn.before, turn.SeenNext(), url) {
        RowKeepsApplied(turn.(url := url));
      }
      RowKeepsRetired(turn);
    }

    lemma NowIsRemembered()
      requires Valid()
      ensures Remembers(Now())
      ensures Now().incarnations.Keys == Now().workers.Keys && Now().workers == workers
      ensures forall url :: url in workers ==> Now().incarnations[url] == workers[url].incarnation
    {
      Filed();
      hide Valid, Balanced;
    }

    /** One turn of the loop over the rows. */
    method ApplyNext(ghost turn: Turn, row: SnapshotWorker)
      requires Valid() && turn.Valid() && row == turn.Row()
      requires Remembers(turn.before) && RetiredSince(turn.before) && AllApplied(turn.before, turn.Seen())
      modifies this`workers, this`retiring
      modifies workers.Values`config, workers.Values`incarnation, workers.Values`health, workers.Values`disabled
      ensures Valid()
      ensures Remembers(turn.before) && RetiredSince(turn.before) && AllApplied(turn.before, turn.SeenNext())
      ensures forall w :: w in workers.Values ==> w in old(workers.Values) || fresh(w)
      ensures forall url, key :: Held(url, key) == old(Held(url, key))
    {
      Filed();
      hide Held, Shows, Busy, Names, LastRow, SameObject, AllApplied, RetiredSince, Valid, SurvivesRow, RowEffect;
      ApplyRow(row);
      RowKeepsAll(turn);
    }

    /** The loop over the snapshot's rows. */
    method ApplyRows(entries: seq<SnapshotWorker>)
      requires Valid()
      modifies this`workers, this`retiring
      modifies workers.Values`config, workers.Values`incarnation, workers.Values`health, workers.Values`disabled
      ensures Valid()
      ensures AllApplied(old(Now()), entries)
      ensures RetiredSince(old(Now()))
      ensures forall url, key :: Held(url, key) == old(Held(url, key))
    {
      ghost var b := Now();
      NowIsRemembered();
      StartApplied(entries[..0]);
      hide Held, Shows, Busy, Names, LastRow, SameObject, AllApplied, RetiredSince, Valid, SurvivesRow, Now;
      for i := 0 to |entries|
        invariant Valid() && Remembers(b)
        invariant forall w :: w in workers.Values ==> w in old(workers.Values) || fresh(w)
        invariant AllApplied(b, entries[..i])
        invariant RetiredSince(b)
        invariant forall url, key :: Held(url, key) == old(Held(url, key))
      {
        ApplyNext(Turn(b, entries, i, ""), entries[i]);
      }
      assert entries[..|entries|] == entries;
    }

    lemma StartApplied(entries: seq<SnapshotWorker>)
      requires entries == [] && Valid()
      ensures RetiredSince(Now()) && AllApplied(Now(), entries)
    {
    }

    /**
     The view is the snapshot's: its urls are exactly the rows', each shows its last row, and the object
     that was there before survives exactly when no row named another incarnation; new ones are unused.
     */
    ghost predicate ShowsSnapshot(b: Before, entries: seq<SnapshotWorker>)
      requires b.incarnations.Keys == b.workers.Keys
      reads this`workers, workers.Values
    {
      && (forall url :: url in workers <==> Names(entries, url))
      && (forall url :: url in workers ==> Shows(workers[url], LastRow(entries, url)))
      && (forall url :: url in workers && url in b.workers ==>
            (workers[url] == b.workers[url] <==> SameObject(entries, url, b.incarnations[url])))
      && (forall url :: url in workers && (url !in b.workers || workers[url] != b.workers[url]) ==>
            NeverUsed(workers[url]))
    }

    lemma SnapshotShown(b: Before, entries: seq<SnapshotWorker>)
      requires b.incarnations.Keys == b.workers.Keys && ShowsSnapshot(b, entries)
      ensures forall url :: url in workers <==> Names(entries, url)
      ensures forall url :: url in workers ==>
        && workers[url].config == LastRow(entries, url).config
        && workers[url].health == LastRow(entries, url).health && workers[url].disabled == LastRow(entries, url).disabled
    {
    }

    lemma SurvivorsShown(b: Before, entries: seq<SnapshotWorker>)
      requires b.incarnations.Keys == b.workers.Keys && ShowsSnapshot(b, entries)
      ensures forall url :: url in workers && url in b.workers ==>
        (workers[url] == b.workers[url] <==> SameObject(entries, url, b.incarnations[url]))
    {
      hide Shows, LastRow, NeverUsed, SameObject, Names;
    }

    /** What the rows left behind, put in terms of the view. */
    lemma AppliedMeans(b: Before, entries: seq<SnapshotWorker>)
      requires AllApplied(b, entries) && Remembers(b)
      ensures forall url :: url in workers ==> (Busy(workers[url]) <==> workers[url] in b.busy)
      ensures forall url :: Names(entries, url) ==> url in workers && Shows(workers[url], LastRow(entries, url))
      ensures forall url :: url in workers && url in b.workers ==>
        (workers[url] == b.workers[url] <==> SameObject(entries, url, b.incarnations[url]))
      ensures forall url :: url in workers && (url !in b.workers || workers[url] != b.workers[url]) ==>
        NeverUsed(workers[url])
    {
      hide Shows, LastRow, SameObject, Names;
      forall url | url in workers || Names(entries, url) ensures UrlApplied(b, entries, url) {
      }
    }

    method PopSince(url: WorkerId, ghost b: Before)
      requires Valid() && RetiredSince(b) && url in workers
      requires Busy(workers[url]) <==> workers[url] in b.busy
      modifies this`workers, this`retiring
      ensures Valid() && RetiredSince(b) && workers == old(workers) - {url}
      ensures forall other, key :: Held(other, key) == old(Held(other, key))
    {
      hide Held, Balanced, Busy;
      Pop(url);
    }

    /** The loop that takes off every worker the snapshot no longer has. */
    method DropUnseen(entries: seq<SnapshotWorker>, ghost b: Before)
      requires Valid() && RetiredSince(b)
      requires forall url :: url in workers ==> (Busy(workers[url]) <==> workers[url] in b.busy)
      requires forall url :: Names(entries, url) ==> url in workers
      modifies this`workers, this`retiring
      ensures Valid() && RetiredSince(b)
      ensures forall url :: url in workers <==> Names(entries, url)
      ensures workers.Keys <= old(workers).Keys && forall url :: url in workers ==> workers[url] == old(workers)[url]
      ensures forall url, key :: Held(url, key) == old(Held(url, key))
    {
      hide Held, Balanced, Busy, Valid, RetiredSince;
      var urls := workers.Keys;
      while urls != {}
        invariant urls <= workers.Keys <= old(workers).Keys
        invariant Valid() && RetiredSince(b)
        invariant forall url :: url in workers ==> workers[url] == old(workers)[url]
        invariant forall url :: url in workers ==> url in urls || Names(entries, url)
        invariant forall url :: Names(entries, url) ==> url in workers
        invariant forall url, key :: Held(url, key) == old(Held(url, key))
        decreases urls
      {
        var url :| url in urls;
        urls := urls - {url};
        if !(exists i :: 0 <= i < |entries| && entries[i].url == url) {
          PopSince(url, b);
        }
      }
    }

    /** Everything but the bookkeeping of which snapshot it was. */
    method ApplyWorkers(entries: seq<SnapshotWorker>, ghost b: Before)
      requires Valid() && b == Now() && Remembers(b)
      modifies this`workers, this`retiring
      modifies workers.Values`config, workers.Values`incarnation, workers.Values`health, workers.Values`disabled
      ensures Valid() && RetiredSince(b) && ShowsSnapshot(b, entries)
      ensures forall url, key :: Held(url, key) == old(Held(url, key))
    {
      hide Held, Shows, LastRow, SameObject, Valid, NeverUsed, RetiredSince, Busy, Names, Now;
      ApplyRows(entries);
      AppliedMeans(b, entries);
      DropUnseen(entries, b);
    }

    /**
     Applying a snapshot. Afterwards the view is the snapshot's; an object survives exactly when its
     url is still there and no row named another incarnation; and nothing that was counted is lost.
     */
    method Apply(entries: seq<SnapshotWorker>, seqno: nat, epoch: string)
      requires Valid()
      modifies this
      modifies workers.Values`config, workers.Values`incarnation, workers.Values`health, workers.Values`disabled
      ensures Valid()
      ensures lastAppliedSeq == seqno && lastAppliedEpoch == epoch
      ensures ShowsSnapshot(old(Now()), entries)
      ensures forall url :: url in workers <==> Names(entries, url)
      ensures forall url :: url in workers ==>
        && workers[url].config == LastRow(entries, url).config
        && workers[url].health == LastRow(entries, url).health && workers[url].disabled == LastRow(entries, url).disabled
      ensures forall url :: url in workers && url in old(workers) ==>
        (workers[url] == old(workers[url]) <==> forall i :: 0 <= i < |entries| && entries[i].url == url ==>
           entries[i].incarnation == "" || entries[i].incarnation == old(workers[url].incarnation))
      ensures RetiredSince(old(Now()))
      ensures forall url, key :: Held(url, key) == old(Held(url, key))
    {
      hide Held, Valid, RetiredSince, ShowsSnapshot, Now, Remembers, Busy, CountedBy, CountedByOne, Balanced;
      ghost var b := Now();
      NowIsRemembered();
      ApplyWorkers(entries, b);
      SnapshotShown(b, entries);
      SurvivorsShown(b, entries);
      lastAppliedSeq, lastAppliedEpoch := seqno, epoch;
    }
  }

  lemma OneMoreRow(entries: seq<SnapshotWorker>, i: nat, url: WorkerId)
    requires i < |entries|
    ensures Names(entries[..i + 1], url) <==> Names(entries[..i], url) || url == entries[i].url
    ensures Names(entries[..i + 1], url) ==>
      && LastRow(entries[..i + 1], url) == if url == entries[i].url then entries[i] else LastRow(entries[..i], url)
    ensures forall incarnation :: SameObject(entries[..i + 1], url, incarnation) <==>
      && SameObject(entries[..i], url, incarnation)
      && (url == entries[i].url ==> entries[i].incarnation == "" || entries[i].incarnation == incarnation)
  {
    var more, less := entries[..i + 1], entries[..i];
    assert more[..|more| - 1] == less && more[i] == entries[i];
    if Names(less, url) {
      var j :| 0 <= j < |less| && less[j].url == url;
      assert more[j].url == url;
    }
    if Names(more, url) && url != entries[i].url {
      var j :| 0 <= j < |more| && more[j].url == url;
      assert less[j].url == url;
    }
    forall incarnation
      ensures SameObject(more, url, incarnation) <==>
        && SameObject(less, url, incarnation)
        && (url == entries[i].url ==> entries[i].incarnation == "" || entries[i].incarnation == incarnation)
    {
      SameObjectNext(entries, i, url, incarnation);
    }
  }

  lemma SameObjectNext(entries: seq<SnapshotWorker>, i: nat, url: WorkerId, incarnation: string)
    requires i < |entries|
    ensures SameObject(entries[..i + 1], url, incarnation) <==>
      && SameObject(entries[..i], url, incarnation)
      && (url == entries[i].url ==> entries[i].incarnation == "" || entries[i].incarnation == incarnation)
  {
    var more, less := entries[..i + 1], entries[..i];
    assert more[i] == entries[i];
    assert forall j :: 0 <= j < i ==> less[j] == more[j];
  }

  lemma BalancedEmpty()
    ensures Balanced(map[])
  {
  }
}
