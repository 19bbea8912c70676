/**
 The ledger as the control plane keeps it: dictionaries nested by stable worker id and incarnation,
 updated in place. Both methods are proved against the flat ledger of `CounterLedger`.
 */
module CounterLedgerStore {
  import opened RouterTypes
  import opened Workers
  import opened Sums
  import opened CounterLedger

  type PerWorker = map<WorkerId, map<Incarnation, Segment>>

  datatype StoredEntry = StoredEntry(generation: nat, seqno: nat, perWorker: PerWorker)

  function Flatten(perWorker: PerWorker): Segments {
    map worker, incarnation | worker in perWorker && incarnation in perWorker[worker] ::
      (worker, incarnation) := perWorker[worker][incarnation]
  }

  function Put(perWorker: PerWorker, k: SegmentKey, segment: Segment): PerWorker {
    perWorker[k.0 := (if k.0 in perWorker then perWorker[k.0] else map[])[k.1 := segment]]
  }

  lemma FlatHas(perWorker: PerWorker, k: SegmentKey)
    ensures k in Flatten(perWorker) <==> k.0 in perWorker && k.1 in perWorker[k.0]
    ensures k in Flatten(perWorker) ==> Flatten(perWorker)[k] == perWorker[k.0][k.1]
  {
  }

  lemma FlattenPut(perWorker: PerWorker, k: SegmentKey, segment: Segment)
    ensures Flatten(Put(perWorker, k, segment)) == Flatten(perWorker)[k := segment]
  {
    hide Flatten;
    var nested, flat := Flatten(Put(perWorker, k, segment)), Flatten(perWorker)[k := segment];
    forall x: SegmentKey
      ensures (x in nested <==> x in flat) && (x in nested ==> nested[x] == flat[x])
    {
      FlatHas(perWorker, x);
      FlatHas(Put(perWorker, k, segment), x);
    }
    assert nested.Keys == flat.Keys;
  }

  /** The two runs hold the same segments; the second started from `shift` more. */
  ghost predicate Shifted(p: Progress, q: Progress, worker: WorkerId, key: CounterKey, shift: nat) {
    && p.carried == q.carried && p.kept == q.kept
    && RetiredOf(q.retired, worker, key) == RetiredOf(p.retired, worker, key) + shift
  }

  lemma ItemShifts(p: Progress, q: Progress, item: Item, first: bool, worker: WorkerId, key: CounterKey, shift: nat)
    requires Shifted(p, q, worker, key, shift)
    ensures Shifted(ApplyItem(p, item, first), ApplyItem(q, item, first), worker, key, shift)
  {
    hide RetiredOf, Retire, Raised, Fresh, Contribution;
    var k := item.Key();
    if k in p.kept {
      RetireAdds(p.retired, k.0, p.kept[k], worker, key);
      RetireAdds(q.retired, k.0, p.kept[k], worker, key);
    }
  }

  /** Retiring earlier segments first shifts the retired totals of a report and nothing else. */
  lemma {:induction false} RetiredShifts(
      p: Progress, q: Progress, items: seq<Item>, first: bool, worker: WorkerId, key: CounterKey, shift: nat)
    requires Shifted(p, q, worker, key, shift)
    ensures Shifted(ApplyItems(p, items, first), ApplyItems(q, items, first), worker, key, shift)
    decreases |items|
  {
    if items != [] {
      hide Shifted, ApplyItem;
      var n := |items| - 1;
      RetiredShifts(p, q, items[..n], first, worker, key, shift);
      ItemShifts(ApplyItems(p, items[..n], first), ApplyItems(q, items[..n], first), items[n], first, worker, key, shift);
    }
  }

  function Own(perWorker: PerWorker, worker: WorkerId): map<Incarnation, Segment> {
    if worker in perWorker then perWorker[worker] else map[]
  }

  /** A worker's share of a flattened entry comes from its own incarnations. */
  lemma OwnIncarnations(perWorker: PerWorker, worker: WorkerId, key: CounterKey)
    ensures SegmentSum(Flatten(perWorker), worker, key) ==
      SegmentSum(Flatten(map[worker := Own(perWorker, worker)]), worker, key)
  {
    var flat, mine := Flatten(perWorker), Flatten(map[worker := Own(perWorker, worker)]);
    var f := (k: SegmentKey) => Share(flat, worker, key, k);
    assert mine.Keys <= flat.Keys;
    SumWiden(mine.Keys, flat.Keys, f);
    SumSame(mine.Keys, f, (k: SegmentKey) => Share(mine, worker, key, k));
  }

  /** What left `segments` for the retired totals is exactly what `rest` lacks. */
  ghost predicate MovedInto(before: Retired, after: Retired, segments: Segments, rest: Segments) {
    forall worker, key ::
      RetiredOf(after, worker, key) + SegmentSum(rest, worker, key) ==
      RetiredOf(before, worker, key) + SegmentSum(segments, worker, key)
  }

  /** A report is accepted in three stages: replaced segments retire, the items apply, the rest retires. */
  lemma AcceptedInStages(l: Ledger, r: Report, begun: Retired, p: Progress, t: Ledger)
    requires Answer(l, r) == AppliedReport
    requires MovedInto(l.retired, begun, Replaced(l, r), map[])
    requires p == ApplyItems(Progress(Continued(l, r), map[], begun), r.items, FirstContact(l, r))
    requires MovedInto(p.retired, t.retired, p.carried, map[])
    requires t.entries == l.entries[r.dp := Entry.Entry(r.generation, r.seqno, p.kept)] && t.seen == l.seen + {r.dp}
    ensures Accepted(l, r, t)
  {
    hide RetiredOf, SegmentSum, Continued, Replaced;
    var direct := Progress(Continued(l, r), map[], l.retired);
    var replaced, items, first := Replaced(l, r), r.items, FirstContact(l, r);
    forall worker, key
      ensures RetiredOf(t.retired, worker, key) == RetiredOf(Processed(l, r).retired, worker, key)
        + SegmentSum(Processed(l, r).carried, worker, key) + SegmentSum(replaced, worker, key)
    {
      NoSegments(worker, key);
      RetiredShifts(direct, Progress(direct.carried, map[], begun), items, first, worker, key,
                    SegmentSum(replaced, worker, key));
    }
    NoSegments("", Overall(Routed));
    RetiredShifts(direct, Progress(direct.carried, map[], begun), items, first, "", Overall(Routed),
                  SegmentSum(replaced, "", Overall(Routed)));
  }

  class DataPlaneCounterLedger {
    var entries: map<nat, StoredEntry>
    var retired: Retired
    var seen: set<nat>

    constructor ()
      ensures View() == EMPTY
    {
      entries, retired, seen := map[], map[], {};
    }

    ghost function View(): Ledger
      reads this
    {
      Ledger(map dp | dp in entries :: Entry.Entry(entries[dp].generation, entries[dp].seqno, Flatten(entries[dp].perWorker)),
             retired, seen)
    }

    method RetireWorker(worker: WorkerId, segment: Segment)
      modifies this`retired
      ensures retired == Retire(old(retired), worker, segment)
    {
      retired := CounterLedger.Retire(retired, worker, segment);
    }

    /** Folds every given segment into its worker's retired totals, in any order. */
    method RetireAll(segments: Segments)
      modifies this`retired
      ensures MovedInto(old(retired), retired, segments, map[])
    {
      hide RetiredOf, SegmentSum, Contribution, CounterLedger.Retire;
      var rest := segments;
      while rest.Keys != {}
        invariant MovedInto(old(retired), retired, segments, rest)
        decreases rest.Keys
      {
        var k :| k in rest.Keys;
        ghost var before, remaining := retired, rest;
        RetireWorker(k.0, rest[k]);
        rest := rest - {k};
        forall worker, key
          ensures RetiredOf(retired, worker, key) + SegmentSum(rest, worker, key) ==
            RetiredOf(before, worker, key) + SegmentSum(remaining, worker, key)
        {
          SegmentSumRemove(remaining, k, worker, key);
          RetireAdds(before, k.0, remaining[k], worker, key);
        }
      }
      assert rest == map[];
    }

    /** The loop over the reported workers. */
    method ApplyWorkers(items: seq<Item>, start: Segments, firstContact: bool)
      returns (carried: Segments, perWorker: PerWorker)
      modifies this`retired
      ensures Progress(carried, Flatten(perWorker), retired) ==
        ApplyItems(Progress(start, map[], old(retired)), items, firstContact)
    {
      hide Flatten, Put, Raised, Fresh, CounterLedger.Retire;
      ghost var begun := Progress(start, map[], retired);
      carried, perWorker := start, map[];
      EmptyFlat();
      var i := 0;
      while i < |items|
        invariant i <= |items|
        invariant Progress(carried, Flatten(perWorker), retired) == ApplyItems(begun, items[..i], firstContact)
      {
        var item := items[i];
        var k := item.Key();
        var segment := if k in carried then Raised(carried[k], item) else Fresh(item, firstContact);
        carried := carried - {k};
        FlatHas(perWorker, k);
        if k.0 in perWorker && k.1 in perWorker[k.0] {
          RetireWorker(k.0, perWorker[k.0][k.1]);
        }
        FlattenPut(perWorker, k, segment);
        perWorker := Put(perWorker, k, segment);
        i := i + 1;
        assert items[..i][..i - 1] == items[..i - 1];
      }
      assert items[..i] == items;
    }

    method Apply(r: Report) returns (reply: Reply)
      modifies this
      ensures reply == Answer(old(View()), r)
      ensures Handled(old(View()), r, View())
    {
      hide Flatten, RetiredOf, SegmentSum, ApplyItems, Accepted;
      ghost var l := View();
      var carried: Segments := map[];
      if r.dp in entries {
        var entry := entries[r.dp];
        if r.generation < entry.generation {
          return StaleGeneration;
        }
        if r.generation == entry.generation && r.seqno <= entry.seqno {
          return DroppedReport;
        }
        if r.generation > entry.generation {
          RetireAll(Flatten(entry.perWorker));
        } else {
          carried := Flatten(entry.perWorker);
        }
      }
      assert MovedInto(l.retired, retired, Replaced(l, r), map[]);
      ghost var begun := retired;
      var firstContact := r.dp !in seen;
      seen := seen + {r.dp};
      var perWorker;
      assert carried == Continued(l, r);
      carried, perWorker := ApplyWorkers(r.items, carried, firstContact);
      ghost var kept := retired;
      RetireAll(carried);
      entries := entries[r.dp := StoredEntry(r.generation, r.seqno, perWorker)];
      assert View().entries == l.entries[r.dp := Entry.Entry(r.generation, r.seqno, Flatten(perWorker))];
      AcceptedInStages(l, r, begun, Progress(carried, Flatten(perWorker), kept), View());
      return AppliedReport;
    }

    /** What is displayed for one worker: all three totals and their per-class breakdown at once. */
    method Totals(worker: WorkerId) returns (totals: Counters)
      ensures forall key :: Get(totals, key) == Total(View(), worker, key)
    {
      hide Flatten, SegmentSum, Contribution, AddContributions;
      totals := if worker in retired then retired[worker] else map[];
      var todo := entries.Keys;
      assert todo == View().entries.Keys;
      while todo != {}
        invariant todo <= entries.Keys
        invariant Leaves(totals, todo, worker)
      {
        var dp :| dp in todo;
        forall key
          ensures LiveSumOf(todo, worker, key) ==
            SegmentSum(Flatten(entries[dp].perWorker), worker, key) + LiveSumOf(todo - {dp}, worker, key)
        {
          LiveSumSplit(todo, dp, worker, key);
        }
        totals := AddEntry(entries[dp].perWorker, worker, totals);
        todo := todo - {dp};
      }
    }

    /** What is still to be added to reach the displayed totals. */
    ghost predicate Leaves(totals: Counters, todo: set<nat>, worker: WorkerId)
      reads this
    {
      forall key :: Get(totals, key) + LiveSumOf(todo, worker, key) == Total(View(), worker, key)
    }

    ghost function LiveSumOf(dps: set<nat>, worker: WorkerId, key: CounterKey): nat
      reads this
    {
      var l := View();
      SumOver(dps, (dp: nat) => SegmentSum(EntrySegments(l, dp), worker, key))
    }

    lemma LiveSumSplit(dps: set<nat>, dp: nat, worker: WorkerId, key: CounterKey)
      requires dp in dps && dps <= entries.Keys
      ensures LiveSumOf(dps, worker, key) ==
        SegmentSum(Flatten(entries[dp].perWorker), worker, key) + LiveSumOf(dps - {dp}, worker, key)
    {
      var l := View();
      SumSplit(dps, (x: nat) => SegmentSum(EntrySegments(l, x), worker, key), dp);
    }

    /** Adds the contributions of one data plane's segments of `worker`. */
    static method AddEntry(perWorker: PerWorker, worker: WorkerId, before: Counters) returns (totals: Counters)
      ensures forall key :: Get(totals, key) == Get(before, key) + SegmentSum(Flatten(perWorker), worker, key)
    {
      hide Flatten, SegmentSum;
      totals := before;
      var own := Own(perWorker, worker);
      while own.Keys != {}
        invariant LeavesOwn(before, totals, worker, perWorker, own)
        decreases own.Keys
      {
        var i :| i in own.Keys;
        ghost var reached, left := totals, own;
        totals := AddContributions(totals, own[i]);
        own := own - {i};
        forall key
          ensures Get(totals, key) + SegmentSum(Flatten(map[worker := own]), worker, key) ==
            Get(reached, key) + SegmentSum(Flatten(map[worker := left]), worker, key)
        {
          OneIncarnation(worker, left, i, key);
        }
      }
      forall key
        ensures Get(totals, key) == Get(before, key) + SegmentSum(Flatten(perWorker), worker, key)
      {
        OwnIncarnations(perWorker, worker, key);
        NoIncarnations(worker, own, key);
      }
    }
  }

  ghost predicate LeavesOwn(
      before: Counters, totals: Counters, worker: WorkerId, all: PerWorker, own: map<Incarnation, Segment>)
  {
    forall key ::
      Get(totals, key) + SegmentSum(Flatten(map[worker := own]), worker, key) ==
      Get(before, key) + SegmentSum(Flatten(map[worker := Own(all, worker)]), worker, key)
  }

  lemma EmptyFlat()
    ensures Flatten(map[]) == map[]
  {
  }

  lemma OneIncarnation(worker: WorkerId, own: map<Incarnation, Segment>, i: Incarnation, key: CounterKey)
    requires i in own
    ensures SegmentSum(Flatten(map[worker := own]), worker, key) ==
      Contribution(own[i], key) + SegmentSum(Flatten(map[worker := own - {i}]), worker, key)
  {
    var flat := Flatten(map[worker := own]);
    SegmentSumRemove(flat, (worker, i), worker, key);
    assert flat - {(worker, i)} == Flatten(map[worker := own - {i}]);
  }

  lemma NoIncarnations(worker: WorkerId, own: map<Incarnation, Segment>, key: CounterKey)
    requires own.Keys == {}
    ensures SegmentSum(Flatten(map[worker := own]), worker, key) == 0
  {
  }
}
