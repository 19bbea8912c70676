/**
 How far the displayed totals can be from the flat history, over every report stream whatever: with objects
 that vanish and return, and with reports that name an object more than once. The display is never below
 the history, the excess never shrinks, and there is none exactly when every reported item counted the same
 on both sides.
 */
module CounterExcess {
  import opened RouterTypes
  import opened Workers
  import opened CounterLedger
  import opened CounterRefinement

  /** What the entry still holds for an object of this report; nothing once it was named or had vanished. */
  function Held(carried: Segments, k: SegmentKey, key: CounterKey): nat {
    if k in carried then Get(carried[k].high, key) else 0
  }

  /** What the history knows of it. */
  function Known(g: History, o: Origin, key: CounterKey): nat {
    if o in g then Get(g[o].high, key) else 0
  }

  function Rise(mark: nat, value: nat): nat {
    Max(mark, value) - mark
  }

  /** What an item adds to the display beyond what it adds to the history. */
  function Surplus(carried: Segments, g: History, r: Report, item: Item, first: bool, worker: WorkerId, key: CounterKey): int {
    if item.worker != worker || first then 0
    else
      Rise(Held(carried, item.Key(), key), Get(item.counters, key))
      - Rise(Known(g, Origin(r.dp, r.generation, item.Key()), key), Get(item.counters, key))
  }

  /**
   The item counts the same on both sides: it is a first report's, or it says no more than the entry holds
   for the object, or the entry holds all the history knows.
   */
  predicate CountsAlike(carried: Segments, g: History, r: Report, item: Item, first: bool, key: CounterKey) {
    var held, known := Held(carried, item.Key(), key), Known(g, Origin(r.dp, r.generation, item.Key()), key);
    first || Get(item.counters, key) <= held || held == known
  }

  ghost predicate Grounded(segment: Segment) {
    forall key :: Get(segment.baseline, key) <= Get(segment.high, key)
  }

  /** A segment of the entry against the history's: grounded, and no higher. */
  ghost predicate Under(segment: Segment, g: History, o: Origin) {
    && Grounded(segment) && o in g
    && forall key :: Get(segment.high, key) <= Get(g[o].high, key)
  }

  ghost predicate AllUnder(segments: Segments, g: History, dp: nat, generation: nat) {
    forall k :: k in segments ==> Under(segments[k], g, Origin(dp, generation, k))
  }

  ghost predicate AllGrounded(h: History) {
    forall o :: o in h ==> Grounded(h[o])
  }

  /** Between reports. */
  ghost predicate Covers(h: History, l: Ledger) {
    && l.entries.Keys <= l.seen && AllGrounded(h)
    && forall dp :: dp in l.entries ==> AllUnder(l.entries[dp].segments, h, dp, l.entries[dp].generation)
  }

  /** Half-way through a report. */
  ghost predicate HalfWay(p: Progress, g: History, r: Report, first: bool) {
    && AllGrounded(g) && (first ==> p.carried == map[])
    && AllUnder(p.carried, g, r.dp, r.generation) && AllUnder(p.kept, g, r.dp, r.generation)
  }

  // ---------------------------------------------------------------- one item

  lemma GroundedContribution(segment: Segment, key: CounterKey)
    requires Grounded(segment)
    ensures Contribution(segment, key) == Get(segment.high, key) - Get(segment.baseline, key)
  {
    assert Get(segment.baseline, key) <= Get(segment.high, key);
  }

  lemma RaisedGrounded(segment: Segment, item: Item)
    requires Grounded(segment)
    ensures Grounded(Raised(segment, item)) && Grounded(Rebased(segment, item))
    ensures forall key :: Get(Raised(segment, item).high, key) == Max(Get(segment.high, key), Get(item.counters, key))
    ensures forall key :: Contribution(Rebased(segment, item), key) == Contribution(segment, key)
  {
    forall key ensures
      && Get(Raised(segment, item).high, key) == Max(Get(segment.high, key), Get(item.counters, key))
      && Get(Rebased(segment, item).baseline, key) ==
           Get(segment.baseline, key) + Get(Raised(segment, item).high, key) - Get(segment.high, key)
    {
      assert Get(segment.baseline, key) <= Get(segment.high, key);
    }
    forall key ensures Get(segment.baseline, key) <= Get(segment.high, key) {
    }
  }

  lemma FreshGrounded(item: Item, first: bool)
    ensures Grounded(Fresh(item, first))
  {
  }

  /** The history's gain, in terms of what it knew. */
  lemma HistoryGain(g: History, r: Report, item: Item, first: bool, worker: WorkerId, key: CounterKey)
    requires AllGrounded(g)
    ensures FlatTotal(RecordItem(g, r.dp, r.generation, item, first), worker, key) == FlatTotal(g, worker, key) +
      if item.worker != worker || first then 0
      else Rise(Known(g, Origin(r.dp, r.generation, item.Key()), key), Get(item.counters, key))
  {
    hide FlatTotal, Contribution;
    var o := Origin(r.dp, r.generation, item.Key());
    var segment := RecordItem(g, r.dp, r.generation, item, first)[o];
    FlatTotalPut(g, o, segment, worker, key);
    FreshGrounded(item, first);
    GroundedContribution(Fresh(item, first), key);
    if o in g {
      RaisedGrounded(g[o], item);
      GroundedContribution(g[o], key);
      GroundedContribution(Raised(g[o], item), key);
    }
  }

  /** The display's gain, in terms of what the entry held. */
  lemma DisplayGain(p: Progress, g: History, r: Report, item: Item, first: bool, worker: WorkerId, key: CounterKey)
    requires HalfWay(p, g, r, first)
    ensures Accounted(ApplyItem(p, item, first), worker, key) == Accounted(p, worker, key) +
      if item.worker != worker || first then 0 else Rise(Held(p.carried, item.Key(), key), Get(item.counters, key))
  {
    hide Accounted, Contribution, ApplyItem;
    ItemGains(p, item, first, worker, key);
    FreshGrounded(item, first);
    GroundedContribution(Fresh(item, first), key);
    if item.Key() in p.carried {
      var segment := p.carried[item.Key()];
      assert Under(segment, g, Origin(r.dp, r.generation, item.Key()));
      RaisedGrounded(segment, item);
      GroundedContribution(segment, key);
      GroundedContribution(Raised(segment, item), key);
    }
  }

  lemma ItemSurplus(p: Progress, g: History, r: Report, item: Item, first: bool, worker: WorkerId, key: CounterKey)
    requires HalfWay(p, g, r, first)
    ensures Accounted(ApplyItem(p, item, first), worker, key) + FlatTotal(g, worker, key) ==
      Accounted(p, worker, key) + FlatTotal(RecordItem(g, r.dp, r.generation, item, first), worker, key)
      + Surplus(p.carried, g, r, item, first, worker, key)
    ensures 0 <= Surplus(p.carried, g, r, item, first, worker, key)
    ensures item.worker == worker ==>
      (Surplus(p.carried, g, r, item, first, worker, key) == 0 <==> CountsAlike(p.carried, g, r, item, first, key))
  {
    hide Accounted, FlatTotal, ApplyItem, RecordItem;
    DisplayGain(p, g, r, item, first, worker, key);
    HistoryGain(g, r, item, first, worker, key);
    if item.Key() in p.carried {
      assert Under(p.carried[item.Key()], g, Origin(r.dp, r.generation, item.Key()));
      assert Get(p.carried[item.Key()].high, key) <= Get(g[Origin(r.dp, r.generation, item.Key())].high, key);
    }
  }

  /** Marks only rise, so what was under the history stays under it. */
  lemma HistoryOnlyRises(g: History, r: Report, item: Item, first: bool, segment: Segment, o: Origin)
    requires AllGrounded(g) && Under(segment, g, o)
    ensures Under(segment, RecordItem(g, r.dp, r.generation, item, first), o)
  {
    if o == Origin(r.dp, r.generation, item.Key()) { RaisedGrounded(g[o], item); }
  }

  lemma RecordGrounded(g: History, r: Report, item: Item, first: bool)
    requires AllGrounded(g)
    ensures AllGrounded(RecordItem(g, r.dp, r.generation, item, first))
  {
    hide Grounded, Raised, Rebased, Fresh;
    var k := Origin(r.dp, r.generation, item.Key());
    FreshGrounded(item, first);
    if k in g { RaisedGrounded(g[k], item); }
  }

  /** The segment an item leaves is under what it leaves in the history. */
  lemma NewSegmentUnder(p: Progress, g: History, r: Report, item: Item, first: bool)
    requires HalfWay(p, g, r, first)
    ensures Under(ApplyItem(p, item, first).kept[item.Key()], RecordItem(g, r.dp, r.generation, item, first),
                  Origin(r.dp, r.generation, item.Key()))
  {
    hide Retire, Rebased;
    var o := Origin(r.dp, r.generation, item.Key());
    FreshGrounded(item, first);
    if o in g { RaisedGrounded(g[o], item); RebasedHigh(g[o], item); }
    if item.Key() in p.carried {
      assert Under(p.carried[item.Key()], g, o);
      RaisedGrounded(p.carried[item.Key()], item);
    }
  }

  lemma RebasedHigh(segment: Segment, item: Item)
    ensures Rebased(segment, item).high == Raised(segment, item).high
  {
  }

  lemma ItemHalfWay(p: Progress, g: History, r: Report, item: Item, first: bool)
    requires HalfWay(p, g, r, first)
    ensures HalfWay(ApplyItem(p, item, first), RecordItem(g, r.dp, r.generation, item, first), r, first)
  {
    hide Under, RecordItem, Raised, Fresh, Retire, AllGrounded;
    var q, f := ApplyItem(p, item, first), RecordItem(g, r.dp, r.generation, item, first);
    RecordGrounded(g, r, item, first);
    NewSegmentUnder(p, g, r, item, first);
    forall k | k in q.carried ensures Under(q.carried[k], f, Origin(r.dp, r.generation, k)) {
      HistoryOnlyRises(g, r, item, first, p.carried[k], Origin(r.dp, r.generation, k));
    }
    forall k | k in q.kept ensures Under(q.kept[k], f, Origin(r.dp, r.generation, k)) {
      if k != item.Key() { HistoryOnlyRises(g, r, item, first, p.kept[k], Origin(r.dp, r.generation, k)); }
    }
  }

  // ---------------------------------------------------------------- one report

  function Begun(l: Ledger, r: Report): Progress {
    Progress(Continued(l, r), map[], l.retired)
  }

  /** Ledger and history after the first `n` items of a report. */
  function PartWay(l: Ledger, r: Report, n: nat): Progress
    requires n <= |r.items|
  {
    ApplyItems(Begun(l, r), r.items[..n], FirstContact(l, r))
  }

  function PartRecorded(l: Ledger, h: History, r: Report, n: nat): History
    requires n <= |r.items|
  {
    RecordItems(h, r.dp, r.generation, r.items[..n], FirstContact(l, r))
  }

  lemma NextItem(l: Ledger, h: History, r: Report, n: nat)
    requires n < |r.items|
    ensures PartWay(l, r, n + 1) == ApplyItem(PartWay(l, r, n), r.items[n], FirstContact(l, r))
    ensures PartRecorded(l, h, r, n + 1) ==
      RecordItem(PartRecorded(l, h, r, n), r.dp, r.generation, r.items[n], FirstContact(l, r))
  {
    hide ApplyItem, RecordItem;
    assert r.items[..n + 1][..n] == r.items[..n];
  }

  function ReportSurplus(l: Ledger, h: History, r: Report, n: nat, worker: WorkerId, key: CounterKey): int
    requires n <= |r.items|
  {
    if n == 0 then 0
    else
      ReportSurplus(l, h, r, n - 1, worker, key)
      + Surplus(PartWay(l, r, n - 1).carried, PartRecorded(l, h, r, n - 1), r, r.items[n - 1], FirstContact(l, r), worker, key)
  }

  /** Item `i` of an accepted report counts the same on both sides. */
  predicate ItemAlike(l: Ledger, h: History, r: Report, i: nat, key: CounterKey)
    requires i < |r.items|
  {
    CountsAlike(PartWay(l, r, i).carried, PartRecorded(l, h, r, i), r, r.items[i], FirstContact(l, r), key)
  }

  /** Each of the first `n` items of `worker` does. */
  predicate ItemsAlike(l: Ledger, h: History, r: Report, n: nat, worker: WorkerId, key: CounterKey)
    requires n <= |r.items|
  {
    forall i :: 0 <= i < n && r.items[i].worker == worker ==> ItemAlike(l, h, r, i, key)
  }

  lemma NoItems(l: Ledger, h: History, r: Report)
    ensures PartWay(l, r, 0) == Begun(l, r) && PartRecorded(l, h, r, 0) == h
  {
    assert r.items[..0] == [];
  }

  lemma {:induction false} ItemsHalfWay(l: Ledger, h: History, r: Report, n: nat)
    requires Covers(h, l) && n <= |r.items|
    ensures HalfWay(PartWay(l, r, n), PartRecorded(l, h, r, n), r, FirstContact(l, r))
  {
    if n == 0 {
      assert r.items[..0] == [];
    } else {
      hide Covers, HalfWay, PartWay, PartRecorded, FirstContact;
      ItemsHalfWay(l, h, r, n - 1);
      NextItem(l, h, r, n - 1);
      ItemHalfWay(PartWay(l, r, n - 1), PartRecorded(l, h, r, n - 1), r, r.items[n - 1], FirstContact(l, r));
    }
  }

  lemma {:induction false} ItemsSurplus(l: Ledger, h: History, r: Report, n: nat, worker: WorkerId, key: CounterKey)
    requires Covers(h, l) && n <= |r.items|
    ensures Accounted(PartWay(l, r, n), worker, key) + FlatTotal(h, worker, key) ==
      Accounted(Begun(l, r), worker, key) + FlatTotal(PartRecorded(l, h, r, n), worker, key)
      + ReportSurplus(l, h, r, n, worker, key)
    ensures 0 <= ReportSurplus(l, h, r, n, worker, key)
    ensures ReportSurplus(l, h, r, n, worker, key) == 0 <==> ItemsAlike(l, h, r, n, worker, key)
  {
    hide Accounted, FlatTotal, HalfWay, Covers, FirstContact, Surplus, CountsAlike, PartWay, PartRecorded, Begun;
    if n == 0 {
      NoItems(l, h, r);
    } else {
      ItemsSurplus(l, h, r, n - 1, worker, key);
      ItemsHalfWay(l, h, r, n - 1);
      NextItem(l, h, r, n - 1);
      var p, g, item := PartWay(l, r, n - 1), PartRecorded(l, h, r, n - 1), r.items[n - 1];
      ItemSurplus(p, g, r, item, FirstContact(l, r), worker, key);
      OtherWorkersAddNothing(p.carried, g, r, item, FirstContact(l, r), worker, key);
    }
  }

  lemma OtherWorkersAddNothing(
      carried: Segments, g: History, r: Report, item: Item, first: bool, worker: WorkerId, key: CounterKey)
    ensures item.worker != worker ==> Surplus(carried, g, r, item, first, worker, key) == 0
  {
  }

  lemma {:induction false} ReportOnlyRises(h: History, r: Report, items: seq<Item>, first: bool, segment: Segment, o: Origin)
    requires AllGrounded(h) && Under(segment, h, o)
    ensures AllGrounded(RecordItems(h, r.dp, r.generation, items, first))
    ensures Under(segment, RecordItems(h, r.dp, r.generation, items, first), o)
    decreases |items|
  {
    if items != [] {
      hide AllGrounded, Under, RecordItem;
      var n := |items| - 1;
      ReportOnlyRises(h, r, items[..n], first, segment, o);
      var g := RecordItems(h, r.dp, r.generation, items[..n], first);
      HistoryOnlyRises(g, r, items[n], first, segment, o);
      RecordGrounded(g, r, items[n], first);
    }
  }

  /** What handling a report does to the history; no rule is asked of the report. */
  function Noted(l: Ledger, h: History, r: Report): History {
    if Answer(l, r) == AppliedReport then RecordItems(h, r.dp, r.generation, r.items, FirstContact(l, r)) else h
  }

  function HandledSurplus(l: Ledger, h: History, r: Report, worker: WorkerId, key: CounterKey): int {
    if Answer(l, r) == AppliedReport then ReportSurplus(l, h, r, |r.items|, worker, key) else 0
  }

  lemma AcceptedCovers(l: Ledger, h: History, r: Report, t: Ledger)
    requires Covers(h, l) && Accepted(l, r, t)
    ensures Covers(RecordItems(h, r.dp, r.generation, r.items, FirstContact(l, r)), t)
  {
    var g := RecordItems(h, r.dp, r.generation, r.items, FirstContact(l, r));
    assert r.items[..|r.items|] == r.items;
    ItemsHalfWay(l, h, r, |r.items|);
    hide Under, AllGrounded, RecordItems, ApplyItems;
    forall dp | dp in t.entries ensures AllUnder(t.entries[dp].segments, g, dp, t.entries[dp].generation) {
      if dp != r.dp {
        forall k | k in l.entries[dp].segments ensures Under(l.entries[dp].segments[k], g, Origin(dp, l.entries[dp].generation, k)) {
          assert AllUnder(l.entries[dp].segments, h, dp, l.entries[dp].generation);
          ReportOnlyRises(h, r, r.items, FirstContact(l, r), l.entries[dp].segments[k], Origin(dp, l.entries[dp].generation, k));
        }
      }
    }
  }

  lemma HandledExcess(l: Ledger, h: History, r: Report, t: Ledger, worker: WorkerId, key: CounterKey)
    requires Covers(h, l) && Handled(l, r, t)
    ensures Covers(Noted(l, h, r), t)
    ensures Total(t, worker, key) + FlatTotal(h, worker, key) ==
      Total(l, worker, key) + FlatTotal(Noted(l, h, r), worker, key) + HandledSurplus(l, h, r, worker, key)
    ensures 0 <= HandledSurplus(l, h, r, worker, key)
  {
    hide Total, FlatTotal, Accounted, Covers, Accepted, ReportSurplus;
    if Answer(l, r) == AppliedReport {
      assert r.items[..|r.items|] == r.items;
      AcceptedMoves(l, r, t, worker, key);
      AcceptedCovers(l, h, r, t);
      ItemsSurplus(l, h, r, |r.items|, worker, key);
    }
  }

  // ---------------------------------------------------------------- a report that names each object once

  lemma {:induction false} CarriedUntilNamed(p: Progress, items: seq<Item>, first: bool)
    ensures ApplyItems(p, items, first).carried == p.carried - Named(items)
    decreases |items|
  {
    if items != [] {
      hide Raised, Fresh, Retire;
      CarriedUntilNamed(p, items[..|items| - 1], first);
    }
  }

  /** Such an item is judged by what entry and history held before the report. */
  lemma NamedOnceAlike(l: Ledger, h: History, r: Report, i: nat, key: CounterKey)
    requires i < |r.items| && DistinctKeys(r.items)
    ensures ItemAlike(l, h, r, i, key) <==> CountsAlike(Continued(l, r), h, r, r.items[i], FirstContact(l, r), key)
  {
    hide RecordItems, ApplyItems, Continued, FirstContact;
    NotNamedBefore(r.items, i, i);
    CarriedUntilNamed(Begun(l, r), r.items[..i], FirstContact(l, r));
    RecordedElsewhere(h, r.dp, r.generation, r.items[..i], FirstContact(l, r), Origin(r.dp, r.generation, r.items[i].Key()));
  }

  /** The item's object is known but the entry dropped it, and both then and now it had something counted. */
  predicate ReturnsCounted(l: Ledger, h: History, r: Report, item: Item, key: CounterKey) {
    && item.Key() !in Continued(l, r)
    && 0 < Get(item.counters, key)
    && 0 < Known(h, Origin(r.dp, r.generation, item.Key()), key)
  }

  lemma ReturnsCountedExactlyWhen(l: Ledger, h: History, r: Report, item: Item, key: CounterKey)
    requires Refines(l, h) && !FirstContact(l, r)
    ensures ReturnsCounted(l, h, r, item, key) <==> !CountsAlike(Continued(l, r), h, r, item, false, key)
  {
    var o := Origin(r.dp, r.generation, item.Key());
    if item.Key() in Continued(l, r) { assert h[o] == Continued(l, r)[item.Key()]; }
  }

  /** From agreement, such a report parts the two exactly when an object of the worker returns counted. */
  lemma ReportAgreesExactlyWhen(l: Ledger, h: History, r: Report, t: Ledger, worker: WorkerId, key: CounterKey)
    requires Refines(l, h) && Covers(h, l) && Accepted(l, r, t) && DistinctKeys(r.items) && !FirstContact(l, r)
    ensures FlatTotal(Noted(l, h, r), worker, key) <= Total(t, worker, key)
    ensures Total(t, worker, key) == FlatTotal(Noted(l, h, r), worker, key) <==>
      forall i :: 0 <= i < |r.items| && r.items[i].worker == worker ==> !ReturnsCounted(l, h, r, r.items[i], key)
  {
    assert Total(l, worker, key) == FlatTotal(h, worker, key);
    HandledExcess(l, h, r, t, worker, key);
    hide Total, FlatTotal, Refines, Covers, ItemAlike, ReturnsCounted, CountsAlike, DistinctKeys, Noted, ReportSurplus,
      Continued, FirstContact;
    ItemsSurplus(l, h, r, |r.items|, worker, key);
    forall i | 0 <= i < |r.items|
      ensures ItemAlike(l, h, r, i, key) <==> !ReturnsCounted(l, h, r, r.items[i], key)
    {
      NamedOnceAlike(l, h, r, i, key);
      ReturnsCountedExactlyWhen(l, h, r, r.items[i], key);
    }
  }

  // ---------------------------------------------------------------- every stream

  /** Any stream from an empty ledger, with the history it makes. */
  ghost predicate AnyStream(ls: seq<Ledger>, hs: seq<History>, rs: seq<Report>) {
    && Stream(ls, rs) && |hs| == |ls| && hs[0] == map[]
    && forall k :: 0 <= k < |rs| ==> hs[k + 1] == Noted(ls[k], hs[k], rs[k])
  }

  ghost function Excess(l: Ledger, h: History, worker: WorkerId, key: CounterKey): int {
    Total(l, worker, key) - FlatTotal(h, worker, key)
  }

  lemma NothingYet(worker: WorkerId, key: CounterKey)
    ensures Covers(map[], EMPTY) && Excess(EMPTY, map[], worker, key) == 0
  {
  }

  lemma {:induction false} StreamCovers(ls: seq<Ledger>, hs: seq<History>, rs: seq<Report>, n: nat)
    requires AnyStream(ls, hs, rs) && n < |ls|
    ensures Covers(hs[n], ls[n])
  {
    hide Covers, Handled, Noted;
    if n == 0 {
      NothingYet("", Overall(Routed));
    } else {
      StreamCovers(ls, hs, rs, n - 1);
      HandledExcess(ls[n - 1], hs[n - 1], rs[n - 1], ls[n], "", Overall(Routed));
    }
  }

  lemma StreamStep(ls: seq<Ledger>, hs: seq<History>, rs: seq<Report>, n: nat, worker: WorkerId, key: CounterKey)
    requires AnyStream(ls, hs, rs) && n < |rs|
    ensures Excess(ls[n + 1], hs[n + 1], worker, key) ==
      Excess(ls[n], hs[n], worker, key) + HandledSurplus(ls[n], hs[n], rs[n], worker, key)
    ensures 0 <= HandledSurplus(ls[n], hs[n], rs[n], worker, key)
  {
    hide Covers, Handled, Noted, HandledSurplus, Total, FlatTotal;
    StreamCovers(ls, hs, rs, n);
    HandledExcess(ls[n], hs[n], rs[n], ls[n + 1], worker, key);
  }

  /** Over every stream the display is never below the flat history, and the excess never shrinks. */
  lemma {:induction false} ExcessOnlyGrows(
      ls: seq<Ledger>, hs: seq<History>, rs: seq<Report>, a: nat, b: nat, worker: WorkerId, key: CounterKey)
    requires AnyStream(ls, hs, rs) && a <= b < |ls|
    ensures 0 <= Excess(ls[a], hs[a], worker, key) <= Excess(ls[b], hs[b], worker, key)
    decreases b
  {
    hide Excess, HandledSurplus, Stream, Noted;
    assert |ls| == |rs| + 1 by { StreamLengths(ls, rs); }
    if b == 0 {
      StartsEven(ls, hs, rs, worker, key);
    } else if a < b {
      ExcessOnlyGrows(ls, hs, rs, a, b - 1, worker, key);
      StreamStep(ls, hs, rs, b - 1, worker, key);
    } else {
      ExcessOnlyGrows(ls, hs, rs, a - 1, b - 1, worker, key);
      StreamStep(ls, hs, rs, b - 1, worker, key);
    }
  }

  lemma StreamLengths(ls: seq<Ledger>, rs: seq<Report>)
    requires Stream(ls, rs)
    ensures |ls| == |rs| + 1
  {
  }

  lemma StartsEven(ls: seq<Ledger>, hs: seq<History>, rs: seq<Report>, worker: WorkerId, key: CounterKey)
    requires AnyStream(ls, hs, rs)
    ensures Excess(ls[0], hs[0], worker, key) == 0
  {
    NothingYet(worker, key);
  }

  /** Every item of `worker` in the accepted reports before `n` counted the same on both sides. */
  ghost predicate AllAlike(
      ls: seq<Ledger>, hs: seq<History>, rs: seq<Report>, n: nat, worker: WorkerId, key: CounterKey)
    requires n <= |rs| < |ls| == |hs|
  {
    forall k :: 0 <= k < n && Answer(ls[k], rs[k]) == AppliedReport ==>
      ItemsAlike(ls[k], hs[k], rs[k], |rs[k].items|, worker, key)
  }

  /**
   Exactly when the displayed total is the flat history's: if and only if, in every accepted report so far,
   each item of the worker either came with a first contact, or said no more than the entry held for its
   object, or found the entry holding all the history knew. An object that vanished with something counted
   and comes back with something counted fails this, and so does one named twice in a report.
   */
  lemma {:induction false} DisplayIsHistoryExactlyWhen(
      ls: seq<Ledger>, hs: seq<History>, rs: seq<Report>, n: nat, worker: WorkerId, key: CounterKey)
    requires AnyStream(ls, hs, rs) && n < |ls|
    ensures Total(ls[n], worker, key) == FlatTotal(hs[n], worker, key) <==> AllAlike(ls, hs, rs, n, worker, key)
  {
    hide Total, FlatTotal, ItemsAlike, Covers, Noted, Stream, ReportSurplus;
    assert |ls| == |rs| + 1 by { StreamLengths(ls, rs); }
    if n == 0 {
      StartsEven(ls, hs, rs, worker, key);
    } else {
      DisplayIsHistoryExactlyWhen(ls, hs, rs, n - 1, worker, key);
      ExcessOnlyGrows(ls, hs, rs, n - 1, n - 1, worker, key);
      StreamStep(ls, hs, rs, n - 1, worker, key);
      StreamCovers(ls, hs, rs, n - 1);
      ItemsSurplus(ls[n - 1], hs[n - 1], rs[n - 1], |rs[n - 1].items|, worker, key);
    }
  }
}
