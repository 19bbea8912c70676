/**
 What the ledger's nested, ever-retiring bookkeeping amounts to: one flat history that never forgets,
 holding for every (data plane, generation, worker object) its first-contact baseline and the largest
 cumulative value ever reported.
 */
module CounterRefinement {
  import opened RouterTypes
  import opened Workers
  import opened Sums
  import opened CounterLedger

  datatype Origin = Origin(dp: nat, generation: nat, segment: SegmentKey)

  type History = map<Origin, Segment>

  /** What a data plane's first report brings belongs to the baseline, even where it names an object again. */
  function Rebased(segment: Segment, item: Item): Segment {
    var raised := Raised(segment, item);
    Segment(map key | key in segment.baseline.Keys + raised.high.Keys ::
              Get(segment.baseline, key) + Get(raised.high, key) - Get(segment.high, key),
            raised.high, item.active)
  }

  function Renewed(segment: Segment, item: Item, firstContact: bool): Segment {
    if firstContact then Rebased(segment, item) else Raised(segment, item)
  }

  function RecordItem(h: History, dp: nat, generation: nat, item: Item, firstContact: bool): History {
    var o := Origin(dp, generation, item.Key());
    h[o := if o in h then Renewed(h[o], item, firstContact) else Fresh(item, firstContact)]
  }

  function RecordItems(h: History, dp: nat, generation: nat, items: seq<Item>, firstContact: bool): History
    decreases |items|
  {
    if items == [] then h
    else
      var n := |items| - 1;
      RecordItem(RecordItems(h, dp, generation, items[..n], firstContact), dp, generation, items[n], firstContact)
  }

  function FlatShare(h: History, worker: WorkerId, key: CounterKey, o: Origin): nat {
    if o in h && o.segment.0 == worker then Contribution(h[o], key) else 0
  }

  ghost function FlatTotal(h: History, worker: WorkerId, key: CounterKey): nat {
    SumOver(h.Keys, (o: Origin) => FlatShare(h, worker, key, o))
  }

  /** One report names each worker object once. */
  predicate DistinctKeys(items: seq<Item>) {
    forall i, j :: 0 <= i < j < |items| ==> items[i].Key() != items[j].Key()
  }

  /** A worker object known from this generation is still carried: none returns after it was dropped. */
  predicate NoneReturns(h: History, l: Ledger, r: Report) {
    forall i :: 0 <= i < |r.items| && Origin(r.dp, r.generation, r.items[i].Key()) in h ==>
      r.items[i].Key() in Continued(l, r)
  }

  ghost predicate Refines(l: Ledger, h: History) {
    && l.entries.Keys <= l.seen
    && (forall dp, k :: dp in l.entries && k in l.entries[dp].segments ==>
          && Origin(dp, l.entries[dp].generation, k) in h
          && h[Origin(dp, l.entries[dp].generation, k)] == l.entries[dp].segments[k])
    && forall worker, key :: Total(l, worker, key) == FlatTotal(h, worker, key)
  }

  lemma FlatTotalPut(h: History, o: Origin, segment: Segment, worker: WorkerId, key: CounterKey)
    ensures FlatTotal(h[o := segment], worker, key) + FlatShare(h, worker, key, o) ==
      FlatTotal(h, worker, key) + (if o.segment.0 == worker then Contribution(segment, key) else 0)
  {
    var after := h[o := segment];
    var f, g := (x: Origin) => FlatShare(h, worker, key, x), (x: Origin) => FlatShare(after, worker, key, x);
    SumSplit(after.Keys, g, o);
    SumSame(after.Keys - {o}, f, g);
    if o in h {
      SumSplit(h.Keys, f, o);
      assert h.Keys - {o} == after.Keys - {o};
    } else {
      assert h.Keys == after.Keys - {o};
    }
  }

  function Named(items: seq<Item>): set<SegmentKey>
    decreases |items|
  {
    if items == [] then {} else Named(items[..|items| - 1]) + {items[|items| - 1].Key()}
  }

  lemma {:induction false} NamedOnly(items: seq<Item>)
    ensures forall k :: k in Named(items) <==> exists i :: 0 <= i < |items| && items[i].Key() == k
    decreases |items|
  {
    if items != [] {
      var n := |items| - 1;
      NamedOnly(items[..n]);
      forall k | k in Named(items) ensures exists i :: 0 <= i < |items| && items[i].Key() == k {
        var less := items[..n];
        if k != items[n].Key() {
          assert k in Named(less);
          var i :| 0 <= i < |less| && less[i].Key() == k;
          assert items[i].Key() == k;
        }
      }
      forall i | 0 <= i < |items| ensures items[i].Key() in Named(items) {
        if i < n { assert items[..n][i] == items[i]; }
      }
    }
  }

  lemma {:induction false} NotNamedBefore(items: seq<Item>, n: nat, j: nat)
    requires n <= j < |items| && DistinctKeys(items)
    ensures items[j].Key() !in Named(items[..n])
  {
    if n > 0 {
      NotNamedBefore(items, n - 1, j);
      assert items[..n][..n - 1] == items[..n - 1];
    }
  }

  /** Every origin outside this report's data plane, generation and named objects is as it was. */
  ghost predicate OnlyNamed(h: History, g: History, r: Report, named: set<SegmentKey>) {
    forall o: Origin :: o.dp != r.dp || o.generation != r.generation || o.segment !in named ==>
      (o in g <==> o in h) && (o in h ==> g[o] == h[o])
  }

  /** Both sides hold the same segments for the objects of this report's generation. */
  ghost predicate Agree(segments: Segments, g: History, r: Report) {
    forall k :: k in segments ==>
      Origin(r.dp, r.generation, k) in g && g[Origin(r.dp, r.generation, k)] == segments[k]
  }

  /** After some items both sides know the same segments. */
  ghost predicate InStep(p: Progress, h: History, g: History, start: Segments, r: Report, named: set<SegmentKey>) {
    && p.carried.Keys == start.Keys - named && p.kept.Keys == named
    && Agree(p.carried, g, r) && Agree(p.kept, g, r)
    && OnlyNamed(h, g, r, named)
  }

  /** What one more item does to both sides, given that the report has not named it before. */
  lemma ItemInStep(
      p: Progress, h: History, g: History, start: Segments, r: Report, named: set<SegmentKey>, item: Item, first: bool)
    requires InStep(p, h, g, start, r, named) && item.Key() !in named && (first ==> start == map[])
    requires Origin(r.dp, r.generation, item.Key()) in h <==> item.Key() in start
    ensures Origin(r.dp, r.generation, item.Key()) in g <==> item.Key() in p.carried
    ensures InStep(ApplyItem(p, item, first), h, RecordItem(g, r.dp, r.generation, item, first), start, r, named + {item.Key()})
  {
    hide Raised, Fresh, Rebased, Retire;
    var o := Origin(r.dp, r.generation, item.Key());
    assert o in g <==> o in h;
    var q := ApplyItem(p, item, first);
    PutInStep(p, h, g, start, r, named, item.Key(), q.kept[item.Key()], q.retired);
  }

  lemma PutInStep(
      p: Progress, h: History, g: History, start: Segments, r: Report, named: set<SegmentKey>, k: SegmentKey,
      segment: Segment, retired: Retired)
    requires InStep(p, h, g, start, r, named) && k !in named
    ensures InStep(Progress(p.carried - {k}, p.kept[k := segment], retired), h,
                   g[Origin(r.dp, r.generation, k) := segment], start, r, named + {k})
  {
    var f := g[Origin(r.dp, r.generation, k) := segment];
    assert Agree(p.kept[k := segment], f, r);
    assert Agree(p.carried - {k}, f, r);
    assert OnlyNamed(h, f, r, named + {k});
  }

  lemma {:induction false} ItemsInStep(l: Ledger, h: History, r: Report, n: nat, first: bool)
    requires Refines(l, h) && n <= |r.items| && DistinctKeys(r.items) && NoneReturns(h, l, r)
    requires first ==> FirstContact(l, r)
    ensures InStep(ApplyItems(Progress(Continued(l, r), map[], l.retired), r.items[..n], first), h,
                   RecordItems(h, r.dp, r.generation, r.items[..n], first), Continued(l, r), r, Named(r.items[..n]))
  {
    if n > 0 {
      assert first ==> Continued(l, r) == map[];
      hide Refines, InStep, NoneReturns, DistinctKeys, ApplyItem, RecordItem, Continued;
      var items, item := r.items[..n - 1], r.items[n - 1];
      ItemsInStep(l, h, r, n - 1, first);
      assert r.items[..n][..n - 1] == items;
      NotNamedBefore(r.items, n - 1, n - 1);
      KnownIffContinued(l, h, r, n - 1);
      ItemInStep(ApplyItems(Progress(Continued(l, r), map[], l.retired), items, first), h,
                 RecordItems(h, r.dp, r.generation, items, first), Continued(l, r), r, Named(items), item, first);
    }
  }

  /** One more item adds the same amount to the accounted total and to the flat one. */
  lemma GainOneMore(
      l: Ledger, h: History, r: Report, n: nat, first: bool, worker: WorkerId, key: CounterKey)
    requires Refines(l, h) && n < |r.items| && DistinctKeys(r.items) && NoneReturns(h, l, r)
    requires first ==> FirstContact(l, r)
    ensures var p := ApplyItems(Progress(Continued(l, r), map[], l.retired), r.items[..n], first);
      var g := RecordItems(h, r.dp, r.generation, r.items[..n], first);
      FlatTotal(RecordItem(g, r.dp, r.generation, r.items[n], first), worker, key) + Accounted(p, worker, key) ==
      FlatTotal(g, worker, key) + Accounted(ApplyItem(p, r.items[n], first), worker, key)
  {
    assert first ==> Continued(l, r) == map[];
    hide Accounted, FlatTotal, Refines, InStep, NoneReturns, DistinctKeys, ApplyItem, RecordItem, ApplyItems, RecordItems,
      Continued, Named;
    var items, item := r.items[..n], r.items[n];
    var p := ApplyItems(Progress(Continued(l, r), map[], l.retired), items, first);
    var g := RecordItems(h, r.dp, r.generation, items, first);
    ItemsInStep(l, h, r, n, first);
    NotNamedBefore(r.items, n, n);
    KnownIffContinued(l, h, r, n);
    ItemInStep(p, h, g, Continued(l, r), r, Named(items), item, first);
    SameGain(p, h, g, Continued(l, r), r, Named(items), item, first, worker, key);
  }

  /** Item by item the accounted total and the flat total grow by the same amount. */
  lemma {:induction false} ItemsGainAlike(
      l: Ledger, h: History, r: Report, n: nat, first: bool, worker: WorkerId, key: CounterKey)
    requires Refines(l, h) && n <= |r.items| && DistinctKeys(r.items) && NoneReturns(h, l, r)
    requires first ==> FirstContact(l, r)
    ensures var start := Progress(Continued(l, r), map[], l.retired);
      FlatTotal(RecordItems(h, r.dp, r.generation, r.items[..n], first), worker, key) + Accounted(start, worker, key) ==
      FlatTotal(h, worker, key) + Accounted(ApplyItems(start, r.items[..n], first), worker, key)
  {
    hide Accounted, FlatTotal, Refines, NoneReturns, DistinctKeys, ApplyItem, RecordItem, Continued;
    if n > 0 {
      assert r.items[..n][..n - 1] == r.items[..n - 1];
      ItemsGainAlike(l, h, r, n - 1, first, worker, key);
      GainOneMore(l, h, r, n - 1, first, worker, key);
    }
  }

  lemma KnownIffContinued(l: Ledger, h: History, r: Report, i: nat)
    requires Refines(l, h) && NoneReturns(h, l, r) && i < |r.items|
    ensures Origin(r.dp, r.generation, r.items[i].Key()) in h <==> r.items[i].Key() in Continued(l, r)
  {
  }

  lemma SameGain(
      p: Progress, h: History, g: History, start: Segments, r: Report, named: set<SegmentKey>, item: Item, first: bool,
      worker: WorkerId, key: CounterKey)
    requires InStep(p, h, g, start, r, named) && (first ==> item.Key() !in p.carried)
    requires Origin(r.dp, r.generation, item.Key()) in g <==> item.Key() in p.carried
    ensures FlatTotal(RecordItem(g, r.dp, r.generation, item, first), worker, key) + Accounted(p, worker, key) ==
      FlatTotal(g, worker, key) + Accounted(ApplyItem(p, item, first), worker, key)
  {
    hide Accounted, FlatTotal;
    var o := Origin(r.dp, r.generation, item.Key());
    ItemGains(p, item, first, worker, key);
    FlatTotalPut(g, o, RecordItem(g, r.dp, r.generation, item, first)[o], worker, key);
    if o in g {
      RaisingOnlyAdds(g[o], item, key);
    }
  }

  lemma AcceptedRefines(l: Ledger, h: History, r: Report, t: Ledger)
    requires Refines(l, h) && Accepted(l, r, t) && DistinctKeys(r.items) && NoneReturns(h, l, r)
    ensures Refines(t, RecordItems(h, r.dp, r.generation, r.items, FirstContact(l, r)))
  {
    var g := RecordItems(h, r.dp, r.generation, r.items, FirstContact(l, r));
    assert r.items[..|r.items|] == r.items;
    forall worker, key ensures Total(t, worker, key) == FlatTotal(g, worker, key) {
      ItemsGainAlike(l, h, r, |r.items|, FirstContact(l, r), worker, key);
      AcceptedMoves(l, r, t, worker, key);
    }
    forall dp, k | dp in t.entries && k in t.entries[dp].segments
      ensures Origin(dp, t.entries[dp].generation, k) in g
      ensures g[Origin(dp, t.entries[dp].generation, k)] == t.entries[dp].segments[k]
    {
      ItemsInStep(l, h, r, |r.items|, FirstContact(l, r));
    }
  }

  // ---------------------------------------------------------------- what a report leaves behind, origin by origin

  lemma {:induction false} RecordedAt(
      h: History, dp: nat, generation: nat, items: seq<Item>, firstContact: bool, n: nat, i: nat)
    requires DistinctKeys(items) && i < n <= |items|
    ensures var o, g := Origin(dp, generation, items[i].Key()), RecordItems(h, dp, generation, items[..n], firstContact);
      o in g && g[o] == if o in h then Renewed(h[o], items[i], firstContact) else Fresh(items[i], firstContact)
  {
    hide Renewed, Raised, Fresh;
    assert items[..n][..n - 1] == items[..n - 1];
    if i < n - 1 {
      RecordedAt(h, dp, generation, items, firstContact, n - 1, i);
      assert items[i].Key() != items[n - 1].Key();
    } else {
      NotNamedBefore(items, n - 1, n - 1);
      RecordedElsewhere(h, dp, generation, items[..n - 1], firstContact, Origin(dp, generation, items[i].Key()));
    }
  }

  lemma {:induction false} RecordedElsewhere(
      h: History, dp: nat, generation: nat, items: seq<Item>, firstContact: bool, o: Origin)
    requires o.dp != dp || o.generation != generation || o.segment !in Named(items)
    ensures var g := RecordItems(h, dp, generation, items, firstContact);
      (o in g <==> o in h) && (o in h ==> g[o] == h[o])
    decreases |items|
  {
    if items != [] {
      hide Renewed, Raised, Fresh;
      RecordedElsewhere(h, dp, generation, items[..|items| - 1], firstContact, o);
    }
  }

  /** The entry keeps exactly the objects the report named. */
  lemma {:induction false} KeptAreNamed(p: Progress, items: seq<Item>, firstContact: bool)
    ensures ApplyItems(p, items, firstContact).kept.Keys == p.kept.Keys + Named(items)
    decreases |items|
  {
    if items != [] {
      hide Renewed, Raised, Fresh, Retire;
      KeptAreNamed(p, items[..|items| - 1], firstContact);
    }
  }

  // ---------------------------------------------------------------- over a whole stream

  /** What a handled report does to the history, given that it keeps the two rules. */
  ghost predicate Recorded(l: Ledger, h: History, r: Report, g: History) {
    if Answer(l, r) == AppliedReport then
      && DistinctKeys(r.items) && NoneReturns(h, l, r)
      && g == RecordItems(h, r.dp, r.generation, r.items, FirstContact(l, r))
    else g == h
  }

  ghost predicate FlatStream(ls: seq<Ledger>, hs: seq<History>, rs: seq<Report>) {
    && Stream(ls, rs) && |hs| == |ls| && hs[0] == map[]
    && forall k :: 0 <= k < |rs| ==> Recorded(ls[k], hs[k], rs[k], hs[k + 1])
  }

  /**
   The displayed totals are those of the flat history: per data plane, generation and worker object,
   the largest value reported minus the first-contact baseline.
   */
  lemma {:induction false} LedgerRefinesHistory(ls: seq<Ledger>, hs: seq<History>, rs: seq<Report>, k: nat)
    requires FlatStream(ls, hs, rs) && k < |ls|
    ensures Refines(ls[k], hs[k])
  {
    if k > 0 {
      LedgerRefinesHistory(ls, hs, rs, k - 1);
      assert Handled(ls[k - 1], rs[k - 1], ls[k]);
      assert Recorded(ls[k - 1], hs[k - 1], rs[k - 1], hs[k]);
      if Answer(ls[k - 1], rs[k - 1]) == AppliedReport {
        AcceptedRefines(ls[k - 1], hs[k - 1], rs[k - 1], ls[k]);
      }
    }
  }

  /** In a history, a mark is the larger of what was there and what is reported; a baseline never changes. */
  lemma RecordKeepsBaseline(h: History, dp: nat, generation: nat, item: Item, firstContact: bool, key: CounterKey)
    ensures var o := Origin(dp, generation, item.Key());
      var g := RecordItem(h, dp, generation, item, firstContact);
      && o in g
      && (o in h ==> Get(g[o].high, key) == Max(Get(h[o].high, key), Get(item.counters, key)))
      && (o in h && !firstContact ==> g[o].baseline == h[o].baseline)
      && (o in h && firstContact ==> Contribution(g[o], key) == Contribution(h[o], key))
      && (o !in h ==>
            && Get(g[o].high, key) == Get(item.counters, key)
            && Contribution(g[o], key) == if firstContact then 0 else Get(item.counters, key))
  {
  }

  /** Outside first contact, an object the entry does not carry counts in full. */
  lemma NewcomerCountsInFull(l: Ledger, r: Report, t: Ledger, item: Item, key: CounterKey)
    requires Accepted(l, r, t) && r.items == [item] && r.dp in l.seen && item.Key() !in Continued(l, r)
    ensures Total(t, item.worker, key) == Total(l, item.worker, key) + Get(item.counters, key)
  {
    var start := Progress(Continued(l, r), map[], l.retired);
    assert r.items[..0] == [];
    assert ApplyItems(start, r.items, false) == ApplyItem(start, item, false);
    AcceptedMoves(l, r, t, item.worker, key);
    ItemGains(start, item, false, item.worker, key);
  }

  /**
   The rule about returning objects is needed: one that never reported more than 5 but vanished from
   a report and came back is displayed as 10 or more.
   */
  lemma ReturningObjectCountsTwice(ls: seq<Ledger>, rs: seq<Report>, item: Item)
    requires item.counters == map[Overall(Routed) := 5]
    requires rs == [Report(0, 1, 1, []), Report(0, 1, 2, [item]), Report(0, 1, 3, []), Report(0, 1, 4, [item])]
    requires Stream(ls, rs)
    ensures Total(ls[4], item.worker, Overall(Routed)) >= 10
  {
    assert Handled(ls[0], rs[0], ls[1]) && Handled(ls[1], rs[1], ls[2]);
    assert Handled(ls[2], rs[2], ls[3]) && Handled(ls[3], rs[3], ls[4]);
    NewcomerCountsInFull(ls[1], rs[1], ls[2], item, Overall(Routed));
    TotalsNeverDecrease(ls[2], rs[2], ls[3], item.worker, Overall(Routed));
    NewcomerCountsInFull(ls[3], rs[3], ls[4], item, Overall(Routed));
  }
}
