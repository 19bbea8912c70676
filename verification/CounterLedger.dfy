/**
 The control plane's ledger of cumulative counter reports. A segment is one worker object of one
 data-plane generation: its first-contact baseline and its high-water mark. What a report does is
 the relation `Accepted`; the class keeps the nested dictionaries and is proved against it.
 */
module CounterLedger {
  import opened RouterTypes
  import opened Workers
  import opened Sums

  type Counters = map<CounterKey, nat>
  type Incarnation = string
  type SegmentKey = (WorkerId, Incarnation)

  datatype Segment = Segment(baseline: Counters, high: Counters, active: nat)

  type Segments = map<SegmentKey, Segment>

  datatype Item = Item(worker: WorkerId, incarnation: Incarnation, counters: Counters, active: nat) {
    function Key(): SegmentKey { (worker, incarnation) }
  }

  datatype Report = Report(dp: nat, generation: nat, seqno: nat, items: seq<Item>)

  datatype Entry = Entry(generation: nat, seqno: nat, segments: Segments)

  /** Totals of segments that are gone, per stable worker id. */
  type Retired = map<WorkerId, Counters>

  datatype Ledger = Ledger(entries: map<nat, Entry>, retired: Retired, seen: set<nat>)

  const EMPTY: Ledger := Ledger(map[], map[], {})

  // ---------------------------------------------------------------- contributions and totals

  function Max(a: nat, b: nat): nat {
    if a < b then b else a
  }

  /** High-water mark minus baseline, never below zero. */
  function Contribution(segment: Segment, key: CounterKey): nat {
    if Get(segment.high, key) > Get(segment.baseline, key)
    then Get(segment.high, key) - Get(segment.baseline, key) else 0
  }

  function RetiredOf(retired: Retired, worker: WorkerId, key: CounterKey): nat {
    if worker in retired then Get(retired[worker], key) else 0
  }

  function Share(segments: Segments, worker: WorkerId, key: CounterKey, k: SegmentKey): nat {
    if k in segments && k.0 == worker then Contribution(segments[k], key) else 0
  }

  ghost function SegmentSum(segments: Segments, worker: WorkerId, key: CounterKey): nat {
    SumOver(segments.Keys, (k: SegmentKey) => Share(segments, worker, key, k))
  }

  function EntrySegments(l: Ledger, dp: nat): Segments {
    if dp in l.entries then l.entries[dp].segments else map[]
  }

  ghost function LiveSum(l: Ledger, worker: WorkerId, key: CounterKey): nat {
    SumOver(l.entries.Keys, (dp: nat) => SegmentSum(EntrySegments(l, dp), worker, key))
  }

  /** The displayed total of one counter of one worker. */
  ghost function Total(l: Ledger, worker: WorkerId, key: CounterKey): nat {
    RetiredOf(l.retired, worker, key) + LiveSum(l, worker, key)
  }

  // ---------------------------------------------------------------- what a report does

  /** A segment not seen before counts in full, except at the first contact with its data plane. */
  function Fresh(item: Item, firstContact: bool): Segment {
    Segment(if firstContact then item.counters else map[], item.counters, item.active)
  }

  /** A regressed cumulative cannot lower the mark. */
  function Raised(segment: Segment, item: Item): Segment {
    Segment(segment.baseline,
            map key | key in segment.high.Keys + item.counters.Keys ::
              Max(Get(segment.high, key), Get(item.counters, key)),
            item.active)
  }

  function AddContributions(slot: Counters, segment: Segment): Counters {
    map key | key in slot.Keys + segment.high.Keys :: Get(slot, key) + Contribution(segment, key) as nat
  }

  function Retire(retired: Retired, worker: WorkerId, segment: Segment): Retired {
    var slot := if worker in retired then retired[worker] else map[];
    retired[worker := AddContributions(slot, segment)]
  }

  /** Half-way through a report: segments not mentioned yet, segments renewed, totals retired. */
  datatype Progress = Progress(carried: Segments, kept: Segments, retired: Retired)

  function ApplyItem(p: Progress, item: Item, firstContact: bool): Progress {
    var k := item.Key();
    var segment := if k in p.carried then Raised(p.carried[k], item) else Fresh(item, firstContact);
    Progress(p.carried - {k},
             p.kept[k := segment],
             if k in p.kept then Retire(p.retired, item.worker, p.kept[k]) else p.retired)
  }

  function ApplyItems(p: Progress, items: seq<Item>, firstContact: bool): Progress
    decreases |items|
  {
    if items == [] then p
    else
      var n := |items| - 1;
      ApplyItem(ApplyItems(p, items[..n], firstContact), items[n], firstContact)
  }

  datatype Reply = AppliedReport | DroppedReport | StaleGeneration

  function Answer(l: Ledger, r: Report): Reply {
    if r.dp !in l.entries then AppliedReport
    else if r.generation < l.entries[r.dp].generation then StaleGeneration
    else if r.generation == l.entries[r.dp].generation && r.seqno <= l.entries[r.dp].seqno then DroppedReport
    else AppliedReport
  }

  /** The segments this report continues: those of its own generation. */
  function Continued(l: Ledger, r: Report): Segments {
    if r.dp in l.entries && l.entries[r.dp].generation == r.generation then l.entries[r.dp].segments else map[]
  }

  /** The segments of a replaced generation; they retire as a whole. */
  function Replaced(l: Ledger, r: Report): Segments {
    if r.dp in l.entries && l.entries[r.dp].generation != r.generation then l.entries[r.dp].segments else map[]
  }

  /** First contact is per control-plane process, not per generation. */
  predicate FirstContact(l: Ledger, r: Report) {
    r.dp !in l.seen
  }

  function Processed(l: Ledger, r: Report): Progress {
    ApplyItems(Progress(Continued(l, r), map[], l.retired), r.items, FirstContact(l, r))
  }

  /** `t` is the ledger after accepting `r`: whatever the report no longer mentions has retired. */
  ghost predicate Accepted(l: Ledger, r: Report, t: Ledger) {
    var p := Processed(l, r);
    && Answer(l, r) == AppliedReport
    && t.entries == l.entries[r.dp := Entry.Entry(r.generation, r.seqno, p.kept)]
    && t.seen == l.seen + {r.dp}
    && forall worker, key :: RetiredOf(t.retired, worker, key) ==
         RetiredOf(p.retired, worker, key) + SegmentSum(p.carried, worker, key)
         + SegmentSum(Replaced(l, r), worker, key)
  }

  /** A stale or duplicate report changes nothing. */
  ghost predicate Handled(l: Ledger, r: Report, t: Ledger) {
    if Answer(l, r) == AppliedReport then Accepted(l, r, t) else t == l
  }

  // ---------------------------------------------------------------- how sums move

  lemma SegmentSumRemove(segments: Segments, k: SegmentKey, worker: WorkerId, key: CounterKey)
    requires k in segments
    ensures SegmentSum(segments, worker, key) ==
      Share(segments, worker, key, k) + SegmentSum(segments - {k}, worker, key)
  {
    var f := (x: SegmentKey) => Share(segments, worker, key, x);
    var rest := segments - {k};
    SumSplit(segments.Keys, f, k);
    assert rest.Keys == segments.Keys - {k};
    SumSame(rest.Keys, f, (x: SegmentKey) => Share(rest, worker, key, x));
  }

  lemma SegmentSumPut(segments: Segments, k: SegmentKey, segment: Segment, worker: WorkerId, key: CounterKey)
    ensures SegmentSum(segments[k := segment], worker, key) + Share(segments, worker, key, k) ==
      SegmentSum(segments, worker, key) + (if k.0 == worker then Contribution(segment, key) else 0)
  {
    var after := segments[k := segment];
    SegmentSumRemove(after, k, worker, key);
    if k in segments {
      SegmentSumRemove(segments, k, worker, key);
      assert after - {k} == segments - {k};
    } else {
      assert after - {k} == segments;
    }
  }

  /** What is accounted for half-way through a report. */
  ghost function Accounted(p: Progress, worker: WorkerId, key: CounterKey): nat {
    RetiredOf(p.retired, worker, key) + SegmentSum(p.carried, worker, key) + SegmentSum(p.kept, worker, key)
  }

  lemma RaisingOnlyAdds(segment: Segment, item: Item, key: CounterKey)
    ensures Contribution(segment, key) <= Contribution(Raised(segment, item), key)
  {
  }

  /** How much one item adds to a counter of `worker`. */
  function Gain(carried: Segments, item: Item, firstContact: bool, worker: WorkerId, key: CounterKey): nat {
    if item.worker != worker then 0
    else if item.Key() in carried then
      Contribution(Raised(carried[item.Key()], item), key) - Contribution(carried[item.Key()], key)
    else Contribution(Fresh(item, firstContact), key)
  }

  lemma RetireAdds(retired: Retired, from: WorkerId, segment: Segment, worker: WorkerId, key: CounterKey)
    ensures RetiredOf(Retire(retired, from, segment), worker, key) ==
      RetiredOf(retired, worker, key) + (if from == worker then Contribution(segment, key) else 0)
  {
  }

  lemma ItemGains(p: Progress, item: Item, firstContact: bool, worker: WorkerId, key: CounterKey)
    ensures Accounted(ApplyItem(p, item, firstContact), worker, key) ==
      Accounted(p, worker, key) + Gain(p.carried, item, firstContact, worker, key)
  {
    var k := item.Key();
    var q := ApplyItem(p, item, firstContact);
    hide SegmentSum, Contribution, RetiredOf, Retire;
    assert item.worker == worker && k in p.carried ==>
      Contribution(p.carried[k], key) <= Contribution(Raised(p.carried[k], item), key) by
    {
      if k in p.carried { RaisingOnlyAdds(p.carried[k], item, key); }
    }
    SegmentSumPut(p.kept, k, q.kept[k], worker, key);
    if k in p.kept { RetireAdds(p.retired, item.worker, p.kept[k], worker, key); }
    if k in p.carried {
      SegmentSumRemove(p.carried, k, worker, key);
    } else {
      assert q.carried == p.carried;
    }
  }

  lemma {:induction false} ItemsOnlyGain(
      p: Progress, items: seq<Item>, firstContact: bool, worker: WorkerId, key: CounterKey)
    ensures Accounted(p, worker, key) <= Accounted(ApplyItems(p, items, firstContact), worker, key)
    decreases |items|
  {
    if items != [] {
      var n := |items| - 1;
      ItemsOnlyGain(p, items[..n], firstContact, worker, key);
      ItemGains(ApplyItems(p, items[..n], firstContact), items[n], firstContact, worker, key);
    }
  }

  /** Replacing one data plane's entry exchanges its share of the live sum. */
  lemma EntryReplaced(l: Ledger, dp: nat, entry: Entry, t: Ledger, worker: WorkerId, key: CounterKey)
    requires t.entries == l.entries[dp := entry]
    ensures LiveSum(t, worker, key) + SegmentSum(EntrySegments(l, dp), worker, key) ==
      LiveSum(l, worker, key) + SegmentSum(entry.segments, worker, key)
  {
    hide SegmentSum;
    var before := (x: nat) => SegmentSum(EntrySegments(l, x), worker, key);
    var after := (x: nat) => SegmentSum(EntrySegments(t, x), worker, key);
    SumSplit(t.entries.Keys, after, dp);
    SumSame(t.entries.Keys - {dp}, before, after);
    if dp in l.entries {
      SumSplit(l.entries.Keys, before, dp);
      assert l.entries.Keys - {dp} == t.entries.Keys - {dp};
    } else {
      assert l.entries.Keys == t.entries.Keys - {dp};
      NoSegments(worker, key);
    }
  }

  lemma NoSegments(worker: WorkerId, key: CounterKey)
    ensures SegmentSum(map[], worker, key) == 0
  {
  }

  /** The total before and after an accepted report differ exactly by what its items added. */
  lemma AcceptedMoves(l: Ledger, r: Report, t: Ledger, worker: WorkerId, key: CounterKey)
    requires Accepted(l, r, t)
    ensures Total(t, worker, key) +
        Accounted(Progress(Continued(l, r), map[], l.retired), worker, key) ==
      Total(l, worker, key) + Accounted(Processed(l, r), worker, key)
  {
    hide SegmentSum, LiveSum, Processed;
    EntryReplaced(l, r.dp, Entry.Entry(r.generation, r.seqno, Processed(l, r).kept), t, worker, key);
    NoSegments(worker, key);
    assert Continued(l, r) == map[] || Replaced(l, r) == map[];
  }

  // ---------------------------------------------------------------- displayed totals never decrease

  /** For every report whatever: duplicate keys, regressed counts, vanished segments, new generations. */
  lemma TotalsNeverDecrease(l: Ledger, r: Report, t: Ledger, worker: WorkerId, key: CounterKey)
    requires Handled(l, r, t)
    ensures Total(l, worker, key) <= Total(t, worker, key)
  {
    if Answer(l, r) == AppliedReport {
      AcceptedMoves(l, r, t, worker, key);
      ItemsOnlyGain(Progress(Continued(l, r), map[], l.retired), r.items, FirstContact(l, r), worker, key);
    }
  }

  ghost predicate Stream(ls: seq<Ledger>, rs: seq<Report>) {
    && |ls| == |rs| + 1 && ls[0] == EMPTY
    && forall k :: 0 <= k < |rs| ==> Handled(ls[k], rs[k], ls[k + 1])
  }

  /** Report `a` was sent before report `b`: by an older process, or by the same one with a smaller number. */
  predicate Older(a: Report, b: Report) {
    a.generation < b.generation || (a.generation == b.generation && a.seqno < b.seqno)
  }

  predicate Makes(r: Report, dp: nat, entry: Entry) {
    r.dp == dp && r.generation == entry.generation && r.seqno == entry.seqno
  }

  /** The entry of a data plane is as new as every report handled so far. */
  lemma {:induction false} EntryIsNewest(ls: seq<Ledger>, rs: seq<Report>, k: nat, dp: nat)
    requires Stream(ls, rs) && k < |ls|
    ensures dp in ls[k].entries ==> forall j :: 0 <= j < k && rs[j].dp == dp ==>
      !Older(Report(dp, ls[k].entries[dp].generation, ls[k].entries[dp].seqno, []), rs[j])
    ensures dp in ls[k].entries <==> exists j :: 0 <= j < k && rs[j].dp == dp
    ensures dp in ls[k].entries ==> exists j :: 0 <= j < k && Makes(rs[j], dp, ls[k].entries[dp])
  {
    if k > 0 {
      hide SegmentSum, RetiredOf, Processed, Replaced;
      EntryIsNewest(ls, rs, k - 1, dp);
      assert Handled(ls[k - 1], rs[k - 1], ls[k]);
    }
  }

  /** Whatever is lost, late or repeated: a report is applied if and only if all handled before it are older. */
  lemma AppliedExactlyWhenNewest(ls: seq<Ledger>, rs: seq<Report>, k: nat)
    requires Stream(ls, rs) && k < |rs|
    ensures Answer(ls[k], rs[k]) == AppliedReport <==>
      forall j :: 0 <= j < k && rs[j].dp == rs[k].dp ==> Older(rs[j], rs[k])
  {
    hide Handled;
    EntryIsNewest(ls, rs, k, rs[k].dp);
  }

  lemma {:induction false} DisplayNeverMovesBack(
      ls: seq<Ledger>, rs: seq<Report>, a: nat, b: nat, worker: WorkerId, key: CounterKey)
    requires Stream(ls, rs) && a <= b < |ls|
    ensures Total(ls[a], worker, key) <= Total(ls[b], worker, key)
  {
    if a < b {
      DisplayNeverMovesBack(ls, rs, a, b - 1, worker, key);
      TotalsNeverDecrease(ls[b - 1], rs[b - 1], ls[b], worker, key);
    }
  }
}
