/**
 The counter pipeline end to end: Worker objects that come, count, retire and are released on one data
 plane; cumulative reports that may be lost, delayed, repeated or overtaken; and the control plane's
 ledger, which may restart empty. Nothing counted is lost and nothing is counted twice.
 */
module CounterPipeline {
  import opened RouterTypes
  import opened Workers
  import opened Sums
  import opened CounterLedger
  import opened CounterRefinement

  /** One process: a data-plane index and its generation. */
  datatype Me = Me(dp: nat, generation: nat) {
    function At(k: SegmentKey): Origin { Origin(dp, generation, k) }
  }

  datatype Obj = Obj(counters: Counters, active: nat)

  type Objects = map<SegmentKey, Obj>

  /** The counters of every object the data plane ever held, at one moment. */
  type Tally = map<SegmentKey, Counters>

  /** A report on its way, with what was true when it was built. */
  datatype Sent = Sent(report: Report, tally: Tally, drained: set<SegmentKey>) {
    function Seqno(): nat { report.seqno }
    function Keys(): set<SegmentKey> { Named(report.items) }
  }

  /**
   `live` is the routable view and `retiring` the list still reported. `last` is the report this control
   plane accepted last from us and `base` the tally it measures from. `restarted` says whether it
   started after we did.
   */
  datatype State = State(
    objects: Objects, live: set<SegmentKey>, retiring: set<SegmentKey>,
    seqno: nat, waiting: Option<Sent>, net: set<Sent>, acks: set<nat>,
    ledger: Ledger, history: History, restarted: bool, base: Tally, last: Option<Sent>)
  {
    predicate Gone(k: SegmentKey) {
      k in objects && k !in live && k !in retiring
    }

    function Sents(): set<Sent> {
      net + (if waiting.Some? then {waiting.value} else {}) + (if last.Some? then {last.value} else {})
    }
  }

  function TallyOf(tally: Tally, k: SegmentKey, key: CounterKey): nat {
    if k in tally then Get(tally[k], key) else 0
  }

  function TallyNow(objects: Objects): Tally {
    map k | k in objects :: objects[k].counters
  }

  function Drained(s: State): set<SegmentKey> {
    set k | k in s.retiring && k in s.objects && s.objects[k].active == 0
  }

  // ---------------------------------------------------------------- steps

  datatype Outcome = NotRouted | RoutedAs(ok: bool, serviceClass: ServiceClass)

  function Counted(counters: Counters, outcome: Outcome): Counters {
    if outcome.NotRouted? then counters else Workers.Recorded(counters, outcome.ok, outcome.serviceClass)
  }

  datatype Step =
    | Appear(k: SegmentKey)
    | Leave(k: SegmentKey)
    | Start(k: SegmentKey)
    | Finish(k: SegmentKey, outcome: Outcome)
    | Flush(sent: Sent)
    | Deliver(sent: Sent)
    | Acked
    | GiveUp
    | OtherReport(report: Report)
    | CpRestart

  /** A worker object comes, goes, takes a request or completes one. */
  predicate ObjectStep(s: State, step: Step, t: State) {
    match step
    case Appear(k) =>
      k !in s.objects && t == s.(objects := s.objects[k := Obj(map[], 0)], live := s.live + {k})
    case Leave(k) =>
      && k in s.live && k in s.objects
      && t == s.(live := s.live - {k},
                 retiring := if s.objects[k].active > 0 || Get(s.objects[k].counters, Overall(Routed)) > 0
                             then s.retiring + {k} else s.retiring)
    case Start(k) =>
      && k in s.live && k in s.objects
      && t == s.(objects := s.objects[k := s.objects[k].(active := s.objects[k].active + 1)])
    case Finish(k, outcome) =>
      && k in s.objects && s.objects[k].active > 0
      && t == s.(objects := s.objects[k :=
           Obj(Counted(s.objects[k].counters, outcome), s.objects[k].active - 1)])
    case _ => false
  }

  /** The report lists every object still reportable, once, with its counters of this moment. */
  predicate Builds(me: Me, s: State, x: Sent) {
    && x.report.dp == me.dp && x.report.generation == me.generation && x.report.seqno == s.seqno + 1
    && DistinctKeys(x.report.items) && x.Keys() == s.live + s.retiring
    && (forall i :: 0 <= i < |x.report.items| ==>
          var item := x.report.items[i];
          item.Key() in s.objects && item.counters == s.objects[item.Key()].counters)
    && x.tally == TallyNow(s.objects) && x.drained == Drained(s)
  }

  /** The flush loop: one report at a time; only an acceptance releases what had drained before it was built. */
  predicate FlushStep(me: Me, s: State, step: Step, t: State) {
    match step
    case Flush(x) =>
      s.waiting.None? && Builds(me, s, x) && t == s.(seqno := s.seqno + 1, waiting := Some(x), net := s.net + {x})
    case Acked =>
      && s.waiting.Some? && s.waiting.value.Seqno() in s.acks
      && t == s.(retiring := s.retiring - s.waiting.value.drained, waiting := None)
    case GiveUp => s.waiting.Some? && t == s.(waiting := None)
    case _ => false
  }

  /**
   The control plane handles our reports, others' reports, and leftovers of our predecessor; the
   predecessor is dead, so a control plane started after us hears nothing from it. Reports in flight
   to a control plane die with it.
   */
  ghost predicate CpStep(me: Me, s: State, step: Step, t: State) {
    match step
    case Deliver(x) =>
      && x in s.net && Handled(s.ledger, x.report, t.ledger)
      && if Answer(s.ledger, x.report) != AppliedReport then t == s
         else
           var first := FirstContact(s.ledger, x.report);
           t == s.(ledger := t.ledger, acks := s.acks + {x.Seqno()},
                   history := RecordItems(s.history, me.dp, me.generation, x.report.items, first),
                   base := if s.last.Some? then s.base else if first then x.tally else map[],
                   last := Some(x))
    case OtherReport(r) =>
      && (r.dp != me.dp || (r.generation < me.generation && !s.restarted))
      && Handled(s.ledger, r, t.ledger) && CounterRefinement.Recorded(s.ledger, s.history, r, t.history)
      && t == s.(ledger := t.ledger, history := t.history)
    case CpRestart =>
      t == s.(ledger := EMPTY, history := map[], net := {}, restarted := true, base := map[], last := None)
    case _ => false
  }

  ghost predicate Next(me: Me, s: State, step: Step, t: State) {
    ObjectStep(s, step, t) || FlushStep(me, s, step, t) || CpStep(me, s, step, t)
  }

  /** A fresh data plane; the control plane may already know others, and this index's predecessors. */
  ghost predicate Init(me: Me, s: State) {
    && s.objects == map[] && s.live == {} && s.retiring == {}
    && s.seqno == 0 && s.waiting.None? && s.net == {} && s.acks == {}
    && Refines(s.ledger, s.history)
    && (me.dp in s.ledger.entries ==> s.ledger.entries[me.dp].generation < me.generation)
    && (forall k :: me.At(k) !in s.history)
    && !s.restarted && s.base == map[] && s.last.None?
  }

  ghost predicate Run(me: Me, states: seq<State>, steps: seq<Step>) {
    && |states| == |steps| + 1 && Init(me, states[0])
    && forall i :: 0 <= i < |steps| ==> Next(me, states[i], steps[i], states[i + 1])
  }

  // ---------------------------------------------------------------- the invariant

  ghost predicate Below(a: Counters, b: Counters) {
    forall key :: Get(a, key) <= Get(b, key)
  }

  ghost predicate ObjectOk(s: State, k: SegmentKey)
    requires k in s.objects
  {
    Balanced(s.objects[k].counters) && (s.Gone(k) ==> s.objects[k].active == 0)
  }

  ghost predicate ObjectsOk(s: State) {
    && s.live + s.retiring <= s.objects.Keys && s.live !! s.retiring
    && forall k :: k in s.objects ==> ObjectOk(s, k)
  }

  /** What one object of a report's tally has become since. */
  ghost predicate Since(s: State, x: Sent, k: SegmentKey)
    requires k in x.tally
  {
    && k in s.objects && Below(x.tally[k], s.objects[k].counters)
    && (k !in x.Keys() ==> s.Gone(k) && x.tally[k] == s.objects[k].counters)
  }

  ghost predicate SentOk(me: Me, s: State, x: Sent) {
    && x.report.dp == me.dp && x.report.generation == me.generation && 1 <= x.Seqno() <= s.seqno
    && DistinctKeys(x.report.items) && x.Keys() <= x.tally.Keys
    && (forall i :: 0 <= i < |x.report.items| ==>
          x.report.items[i].Key() in x.tally && x.report.items[i].counters == x.tally[x.report.items[i].Key()])
    && (forall k :: k in x.tally ==> Since(s, x, k))
  }

  /** A later report knows every object of an earlier one, with no less counted, and revives none. */
  ghost predicate Ordered(a: Sent, b: Sent) {
    && (a.Seqno() == b.Seqno() ==> a == b)
    && (a.Seqno() < b.Seqno() ==>
          && a.tally.Keys <= b.tally.Keys
          && (forall k :: k in a.tally ==> Below(a.tally[k], b.tally[k]))
          && (forall k :: k in a.tally && k in b.Keys() ==> k in a.Keys()))
  }

  /** Every object that is gone counts in `tally` with everything it ever counted. */
  ghost predicate Caught(s: State, tally: Tally) {
    forall k :: s.Gone(k) ==> CaughtOne(s, tally, k)
  }

  ghost predicate CaughtOne(s: State, tally: Tally, k: SegmentKey)
    requires k in s.objects
  {
    forall key :: Get(s.objects[k].counters, key) == TallyOf(tally, k, key)
  }

  predicate Deliverable(s: State, x: Sent) {
    x in s.net && (s.last.Some? ==> x.Seqno() > s.last.value.Seqno())
  }

  ghost predicate SentsOk(me: Me, s: State) {
    && (forall x :: x in s.Sents() ==> SentOk(me, s, x))
    && (forall a, b :: a in s.Sents() && b in s.Sents() ==> Ordered(a, b))
  }

  ghost predicate AllCaught(s: State) {
    && (forall x :: Deliverable(s, x) ==> Caught(s, x.tally))
    && (s.last.Some? ==> Caught(s, s.last.value.tally))
    && (s.last.None? && !s.restarted ==> Caught(s, map[]))
  }

  /** The report being waited for is the newest; what it lists as drained no longer changes. */
  ghost predicate WaitOk(s: State) {
    && (forall n :: n in s.acks ==> n <= s.seqno)
    && (s.waiting.Some? ==>
          var w := s.waiting.value;
          && w.Seqno() == s.seqno
          && (forall k :: k in w.drained ==>
                && k in s.retiring && k in s.objects && s.objects[k].active == 0
                && k in w.tally && w.tally[k] == s.objects[k].counters)
          && (w.Seqno() in s.acks ==> s.last == s.waiting || (s.last.None? && s.restarted && s.net == {})))
  }

  /** What the flat history holds for one object: everything tallied, measured from the base. */
  ghost predicate Marked(me: Me, h: History, base: Tally, tally: Tally, k: SegmentKey) {
    forall key :: MarkedAt(me, h, base, tally, k, key)
  }

  ghost predicate MarkedAt(me: Me, h: History, base: Tally, tally: Tally, k: SegmentKey, key: CounterKey) {
    && TallyOf(base, k, key) <= TallyOf(tally, k, key)
    && if me.At(k) in h then
         && Get(h[me.At(k)].high, key) == TallyOf(tally, k, key)
         && Get(h[me.At(k)].baseline, key) == TallyOf(base, k, key)
       else
         TallyOf(tally, k, key) == TallyOf(base, k, key)
  }

  ghost predicate LedgerOk(me: Me, s: State) {
    && Refines(s.ledger, s.history)
    && (s.last.None? ==>
          && s.base == map[] && (forall k :: me.At(k) !in s.history)
          && (me.dp in s.ledger.entries ==> s.ledger.entries[me.dp].generation < me.generation)
          && (s.restarted ==> me.dp !in s.ledger.seen && me.dp !in s.ledger.entries))
    && (s.last.Some? ==>
          var x := s.last.value;
          && me.dp in s.ledger.entries && me.dp in s.ledger.seen
          && s.ledger.entries[me.dp].generation == me.generation
          && s.ledger.entries[me.dp].seqno == x.Seqno()
          && s.ledger.entries[me.dp].segments.Keys == x.Keys()
          && (forall k :: me.At(k) in s.history ==> k in x.tally)
          && (forall k :: k in x.Keys() ==> me.At(k) in s.history)
          && (forall k :: Marked(me, s.history, s.base, x.tally, k)))
  }

  ghost predicate Inv(me: Me, s: State) {
    ObjectsOk(s) && SentsOk(me, s) && AllCaught(s) && WaitOk(s) && LedgerOk(me, s)
  }

  // ---------------------------------------------------------------- objects only count up

  /** Objects are never forgotten, never count down, and are frozen once gone. */
  ghost predicate Grows(s: State, t: State) {
    && s.objects.Keys <= t.objects.Keys
    && (forall k :: k in s.objects ==> Below(s.objects[k].counters, t.objects[k].counters))
    && (forall k :: s.Gone(k) ==> t.Gone(k) && t.objects[k] == s.objects[k])
    && s.seqno <= t.seqno
  }

  lemma SentStaysOk(me: Me, s: State, t: State, x: Sent)
    requires SentOk(me, s, x) && Grows(s, t)
    ensures SentOk(me, t, x)
  {
  }

  lemma CountedGrows(counters: Counters, outcome: Outcome)
    requires Balanced(counters)
    ensures Balanced(Counted(counters, outcome)) && Below(counters, Counted(counters, outcome))
  {
    if outcome.RoutedAs? {
      RecordingKeepsBalance(counters, outcome.ok, outcome.serviceClass);
    }
  }

  /** One object, new or not gone, is given no smaller counters. */
  lemma PutGrows(s: State, t: State, k: SegmentKey, obj: Obj)
    requires ObjectsOk(s) && Balanced(obj.counters) && !s.Gone(k)
    requires k in s.objects ==> Below(s.objects[k].counters, obj.counters) && t.live == s.live
    requires k !in s.objects ==> t.live == s.live + {k}
    requires t.objects == s.objects[k := obj] && t.retiring == s.retiring && t.seqno == s.seqno
    ensures Grows(s, t) && ObjectsOk(t)
  {
  }

  lemma ObjectStepGrows(s: State, step: Step, t: State)
    requires ObjectsOk(s) && ObjectStep(s, step, t)
    ensures Grows(s, t) && ObjectsOk(t)
  {
    match step
    case Appear(k) =>
      PutGrows(s, t, k, Obj(map[], 0));
    case Leave(k) =>
      forall j | j in t.objects ensures ObjectOk(t, j) {
        assert ObjectOk(s, j);
      }
    case Start(k) =>
      assert ObjectOk(s, k);
      PutGrows(s, t, k, t.objects[k]);
    case Finish(k, outcome) =>
      assert ObjectOk(s, k);
      CountedGrows(s.objects[k].counters, outcome);
      PutGrows(s, t, k, t.objects[k]);
  }

  /** An object that leaves without ever having been routed to has nothing to tell. */
  lemma ObjectStepCaught(me: Me, s: State, step: Step, t: State, tally: Tally)
    requires Inv(me, s) && ObjectStep(s, step, t) && Caught(s, tally)
    requires forall k :: k in tally ==> k in s.objects && Below(tally[k], s.objects[k].counters)
    ensures Caught(t, tally)
  {
    forall k | t.Gone(k) ensures CaughtOne(t, tally, k) {
      assert ObjectOk(s, k);
      if s.Gone(k) {
        assert CaughtOne(s, tally, k);
      } else {
        forall key ensures Get(t.objects[k].counters, key) == TallyOf(tally, k, key) {
          NothingRouted(t.objects[k].counters, key);
        }
      }
    }
  }

  lemma SentsStay(me: Me, s: State, t: State)
    requires SentsOk(me, s) && Grows(s, t) && t.Sents() <= s.Sents()
    ensures SentsOk(me, t)
  {
  }

  lemma TallyBelow(me: Me, s: State, x: Sent)
    requires SentsOk(me, s) && x in s.Sents()
    ensures forall k :: k in x.tally ==> k in s.objects && Below(x.tally[k], s.objects[k].counters)
  {
  }

  lemma ObjectStepAllCaught(me: Me, s: State, step: Step, t: State)
    requires Inv(me, s) && ObjectStep(s, step, t)
    ensures AllCaught(t)
  {
    hide ObjectsOk, SentsOk, WaitOk, LedgerOk, Caught;
    assert t.net == s.net && t.last == s.last && t.restarted == s.restarted;
    forall x | Deliverable(t, x) ensures Caught(t, x.tally) {
      TallyBelow(me, s, x);
      ObjectStepCaught(me, s, step, t, x.tally);
    }
    if s.last.Some? {
      TallyBelow(me, s, s.last.value);
      ObjectStepCaught(me, s, step, t, s.last.value.tally);
    } else if !s.restarted {
      ObjectStepCaught(me, s, step, t, map[]);
    }
  }

  lemma ObjectStepInv(me: Me, s: State, step: Step, t: State)
    requires Inv(me, s) && ObjectStep(s, step, t)
    ensures Inv(me, t)
  {
    ObjectStepGrows(s, step, t);
    SentsStay(me, s, t);
    ObjectStepAllCaught(me, s, step, t);
    ObjectStepWait(s, step, t);
    assert LedgerSame(s, t);
    LedgerStays(me, s, t);
    hide ObjectsOk, SentsOk, AllCaught, WaitOk, LedgerOk, ObjectStep;
  }

  predicate LedgerSame(s: State, t: State) {
    && t.ledger == s.ledger && t.history == s.history && t.restarted == s.restarted
    && t.base == s.base && t.last == s.last
  }

  lemma LedgerStays(me: Me, s: State, t: State)
    requires LedgerOk(me, s) && LedgerSame(s, t)
    ensures LedgerOk(me, t)
  {
  }

  /** An idle retiring object takes no more requests. */
  lemma ObjectStepWait(s: State, step: Step, t: State)
    requires ObjectsOk(s) && WaitOk(s) && ObjectStep(s, step, t)
    ensures WaitOk(t)
  {
  }

  // ---------------------------------------------------------------- the flush loop

  lemma FlushSents(me: Me, s: State, x: Sent, t: State)
    requires Inv(me, s) && FlushStep(me, s, Flush(x), t)
    ensures SentsOk(me, t)
  {
    SentsFresh(me, s, x);
    forall y | y in t.Sents() ensures SentOk(me, t, y) {
      if y != x {
        assert y in s.Sents();
        SentStaysOk(me, s, t, y);
      }
    }
    forall a, b | a in t.Sents() && b in t.Sents() ensures Ordered(a, b) {
      if a != x && b != x {
        assert a in s.Sents() && b in s.Sents();
      } else if a != x {
        assert a in s.Sents() && SentOk(me, s, a);
      } else if b != x {
        assert b in s.Sents() && SentOk(me, s, b);
      }
    }
  }

  /** A report just built comes after every earlier one. */
  lemma SentsFresh(me: Me, s: State, x: Sent)
    requires Inv(me, s) && Builds(me, s, x)
    ensures SentOk(me, s.(seqno := s.seqno + 1), x)
    ensures forall a :: a in s.Sents() ==> Ordered(a, x)
  {
    hide Balanced;
    NamedOnly(x.report.items);
    forall a | a in s.Sents() ensures Ordered(a, x) {
      assert SentOk(me, s, a);
      forall k | k in a.tally ensures k in x.tally && Below(a.tally[k], x.tally[k]) && (k in x.Keys() ==> k in a.Keys()) {
        assert Since(s, a, k);
      }
    }
  }

  predicate ObjectsSame(s: State, t: State) {
    t.objects == s.objects && t.live == s.live && t.retiring == s.retiring
  }

  lemma CaughtStays(s: State, t: State, tally: Tally)
    requires Caught(s, tally) && ObjectsSame(s, t)
    ensures Caught(t, tally)
  {
    forall k | t.Gone(k) ensures CaughtOne(t, tally, k) {
      assert CaughtOne(s, tally, k);
    }
  }

  lemma FlushCaught(s: State, x: Sent, t: State)
    requires AllCaught(s) && ObjectsSame(s, t) && t.last == s.last && t.restarted == s.restarted
    requires t.net == s.net + {x} && x.tally == TallyNow(s.objects)
    ensures AllCaught(t)
  {
    hide Caught;
    forall y | Deliverable(t, y) ensures Caught(t, y.tally) {
      if y == x { NothingMissing(t); } else { CaughtStays(s, t, y.tally); }
    }
    if s.last.Some? { CaughtStays(s, t, s.last.value.tally); }
    else if !s.restarted { CaughtStays(s, t, map[]); }
  }

  lemma ObjectsStay(s: State, t: State)
    requires ObjectsOk(s) && ObjectsSame(s, t)
    ensures ObjectsOk(t)
  {
  }

  lemma FlushInv(me: Me, s: State, x: Sent, t: State)
    requires Inv(me, s) && FlushStep(me, s, Flush(x), t)
    ensures Inv(me, t)
  {
    FlushSents(me, s, x, t);
    LedgerStays(me, s, t);
    ObjectsStay(s, t);
    FlushCaught(s, x, t);
    hide ObjectsOk, SentsOk, LedgerOk, AllCaught, DistinctKeys;
  }

  lemma NothingMissing(s: State)
    ensures Caught(s, TallyNow(s.objects))
  {
  }

  lemma GiveUpInv(me: Me, s: State, t: State)
    requires Inv(me, s) && FlushStep(me, s, GiveUp, t)
    ensures Inv(me, t)
  {
    LedgerStays(me, s, t);
    SentsStay(me, s, t);
    ObjectsStay(s, t);
    hide SentsOk, LedgerOk, ObjectsOk, Caught;
    forall y | Deliverable(t, y) ensures Caught(t, y.tally) { CaughtStays(s, t, y.tally); }
    if s.last.Some? { CaughtStays(s, t, s.last.value.tally); }
    else if !s.restarted { CaughtStays(s, t, map[]); }
  }

  /** What an accepted report released, it had counted in full; and no older report can still be accepted. */
  lemma AckedInv(me: Me, s: State, t: State)
    requires Inv(me, s) && FlushStep(me, s, Acked, t)
    ensures Inv(me, t)
  {
    LedgerStays(me, s, t);
    SentsStay(me, s, t);
    forall k | k in t.objects ensures ObjectOk(t, k) { assert ObjectOk(s, k); }
    hide ObjectOk, LedgerOk;
    assert forall y :: y in s.net ==> SentOk(me, s, y);
    assert forall y :: !Deliverable(t, y);
    if s.last.Some? {
      forall k | t.Gone(k) ensures CaughtOne(t, s.last.value.tally, k) {
        assert s.Gone(k) ==> CaughtOne(s, s.last.value.tally, k);
      }
    }
  }

  // ---------------------------------------------------------------- the control plane accepts a report

  lemma SameGrows(s: State, t: State)
    requires ObjectsSame(s, t) && t.seqno == s.seqno
    ensures Grows(s, t)
  {
  }

  lemma FreshMark(me: Me, g: History, base: Tally, tally: Tally, item: Item, first: bool)
    requires me.At(item.Key()) in g && g[me.At(item.Key())] == Fresh(item, first)
    requires item.Key() in tally && tally[item.Key()] == item.counters
    requires forall key :: TallyOf(base, item.Key(), key) == if first then Get(item.counters, key) else 0
    ensures Marked(me, g, base, tally, item.Key())
  {
  }

  lemma RaisedMark(me: Me, h: History, g: History, base: Tally, before: Tally, tally: Tally, item: Item)
    requires me.At(item.Key()) in h && Marked(me, h, base, before, item.Key())
    requires me.At(item.Key()) in g && g[me.At(item.Key())] == Raised(h[me.At(item.Key())], item)
    requires item.Key() in before && Below(before[item.Key()], item.counters)
    requires item.Key() in tally && tally[item.Key()] == item.counters
    ensures Marked(me, g, base, tally, item.Key())
  {
    var k := item.Key();
    forall key ensures MarkedAt(me, g, base, tally, k, key) {
      assert MarkedAt(me, h, base, before, k, key);
    }
  }

  /** An object of the report is new to this control plane, or is held as it was last reported. */
  lemma ReportedMark(me: Me, s: State, x: Sent, i: nat, t: State)
    requires Inv(me, s) && CpStep(me, s, Deliver(x), t) && Answer(s.ledger, x.report) == AppliedReport
    requires i < |x.report.items|
    ensures me.At(x.report.items[i].Key()) in t.history
    ensures Marked(me, t.history, t.base, x.tally, x.report.items[i].Key())
  {
    hide AllCaught, WaitOk, ObjectsOk, Refines, Accepted, RecordItems, Raised, Fresh, Marked, Since, Below;
    var items, item := x.report.items, x.report.items[i];
    var first := FirstContact(s.ledger, x.report);
    assert x in s.Sents() && SentOk(me, s, x);
    assert items[..|items|] == items;
    RecordedAt(s.history, me.dp, me.generation, items, first, |items|, i);
    if s.last.None? {
      FreshMark(me, t.history, t.base, x.tally, item, first);
    } else {
      var y := s.last.value;
      assert y in s.Sents() && Ordered(y, x);
      NamedOnly(items);
      assert item.Key() in x.Keys();
      if me.At(item.Key()) in s.history {
        RaisedMark(me, s.history, t.history, s.base, y.tally, x.tally, item);
      } else {
        UnknownMark(me, s.history, s.base, y.tally, item.Key());
        FreshMark(me, t.history, t.base, x.tally, item, first);
      }
    }
  }

  lemma UnknownMark(me: Me, h: History, base: Tally, tally: Tally, k: SegmentKey)
    requires me.At(k) !in h && k !in tally && Marked(me, h, base, tally, k)
    ensures forall key :: TallyOf(base, k, key) == 0
  {
    forall key ensures TallyOf(base, k, key) == 0 {
      assert MarkedAt(me, h, base, tally, k, key);
    }
  }

  /** An object the report does not list is gone, and had been counted in full. */
  lemma UnreportedMark(me: Me, s: State, x: Sent, k: SegmentKey, t: State)
    requires Inv(me, s) && CpStep(me, s, Deliver(x), t) && Answer(s.ledger, x.report) == AppliedReport
    requires k !in x.Keys()
    ensures me.At(k) in t.history ==> k in x.tally
    ensures Marked(me, t.history, t.base, x.tally, k)
  {
    hide WaitOk, ObjectsOk, Refines, Accepted, RecordItems, Below, Balanced, Named;
    assert x in s.Sents() && SentOk(me, s, x);
    RecordedElsewhere(s.history, me.dp, me.generation, x.report.items, FirstContact(s.ledger, x.report), me.At(k));
    assert k in x.tally ==> Since(s, x, k);
    if s.last.Some? {
      var y := s.last.value;
      assert y in s.Sents() && Ordered(y, x);
      assert Marked(me, s.history, s.base, y.tally, k);
      assert k in x.tally ==> CaughtOne(s, y.tally, k);
    } else if !s.restarted {
      assert k in x.tally ==> CaughtOne(s, map[], k);
    }
    hide AllCaught, SentsOk;
    forall key ensures MarkedAt(me, t.history, t.base, x.tally, k, key) {
      if s.last.Some? {
        assert MarkedAt(me, s.history, s.base, s.last.value.tally, k, key);
      }
    }
  }

  /** Nothing we report now was dropped by the control plane before. */
  lemma NoneOfOursReturns(me: Me, s: State, x: Sent)
    requires Inv(me, s) && x in s.net && Answer(s.ledger, x.report) == AppliedReport
    ensures DistinctKeys(x.report.items) && NoneReturns(s.history, s.ledger, x.report)
  {
    assert x in s.Sents() && SentOk(me, s, x);
    NamedOnly(x.report.items);
    if s.last.Some? {
      assert s.last.value in s.Sents() && Ordered(s.last.value, x);
    }
    hide AllCaught, WaitOk, SentsOk, ObjectsOk, Refines;
    forall i | 0 <= i < |x.report.items| && Origin(x.report.dp, x.report.generation, x.report.items[i].Key()) in s.history
      ensures x.report.items[i].Key() in Continued(s.ledger, x.report)
    {
      assert me.At(x.report.items[i].Key()) in s.history;
      assert x.report.items[i].Key() in x.Keys();
    }
  }

  lemma DeliverMarks(me: Me, s: State, x: Sent, k: SegmentKey, t: State)
    requires Inv(me, s) && CpStep(me, s, Deliver(x), t) && Answer(s.ledger, x.report) == AppliedReport
    ensures Marked(me, t.history, t.base, x.tally, k)
    ensures me.At(k) in t.history ==> k in x.tally
    ensures k in x.Keys() ==> me.At(k) in t.history
  {
    hide Marked, AllCaught, WaitOk, ObjectsOk, LedgerOk;
    assert x in s.Sents() && SentOk(me, s, x);
    NamedOnly(x.report.items);
    if k in x.Keys() {
      var i :| 0 <= i < |x.report.items| && x.report.items[i].Key() == k;
      ReportedMark(me, s, x, i, t);
    } else {
      UnreportedMark(me, s, x, k, t);
    }
  }

  lemma DeliverLedger(me: Me, s: State, x: Sent, t: State)
    requires Inv(me, s) && CpStep(me, s, Deliver(x), t) && Answer(s.ledger, x.report) == AppliedReport
    ensures LedgerOk(me, t)
  {
    hide Marked, AllCaught, WaitOk, ObjectsOk, Refines, RecordItems, ApplyItems, Since;
    assert x in s.Sents() && SentOk(me, s, x);
    NoneOfOursReturns(me, s, x);
    AcceptedRefines(s.ledger, s.history, x.report, t.ledger);
    KeptAreNamed(Progress(Continued(s.ledger, x.report), map[], s.ledger.retired), x.report.items,
                 FirstContact(s.ledger, x.report));
    forall k
      ensures Marked(me, t.history, t.base, x.tally, k)
      ensures me.At(k) in t.history ==> k in x.tally
      ensures k in x.Keys() ==> me.At(k) in t.history
    {
      DeliverMarks(me, s, x, k, t);
    }
  }

  lemma DeliverWait(me: Me, s: State, x: Sent, t: State)
    requires Inv(me, s) && CpStep(me, s, Deliver(x), t) && Answer(s.ledger, x.report) == AppliedReport
    ensures WaitOk(t)
  {
    hide Marked, AllCaught, ObjectsOk, Refines, RecordItems, Accepted, Since;
    assert x in s.Sents() && SentOk(me, s, x);
    if s.waiting.Some? {
      assert s.waiting.value in s.Sents() && Ordered(s.waiting.value, x);
    }
  }

  lemma DeliverCaught(me: Me, s: State, x: Sent, t: State)
    requires Inv(me, s) && CpStep(me, s, Deliver(x), t) && Answer(s.ledger, x.report) == AppliedReport
    ensures AllCaught(t)
  {
    hide Marked, ObjectsOk, Refines, RecordItems, Accepted, Since, Caught;
    assert x in s.Sents() && SentOk(me, s, x);
    assert Deliverable(s, x);
    CaughtStays(s, t, x.tally);
    forall y | Deliverable(t, y) ensures Caught(t, y.tally) {
      assert Deliverable(s, y);
      CaughtStays(s, t, y.tally);
    }
  }

  lemma DeliverInv(me: Me, s: State, x: Sent, t: State)
    requires Inv(me, s) && CpStep(me, s, Deliver(x), t)
    ensures Inv(me, t)
  {
    if Answer(s.ledger, x.report) == AppliedReport {
      DeliverLedger(me, s, x, t);
      DeliverWait(me, s, x, t);
      DeliverCaught(me, s, x, t);
      ObjectsStay(s, t);
      SameGrows(s, t);
      SentsStay(me, s, t);
      hide SentsOk, AllCaught, WaitOk, ObjectsOk, LedgerOk, RecordItems, Handled, Grows;
    }
  }

  // ---------------------------------------------------------------- other reports and restarts

  lemma OtherReportInv(me: Me, s: State, r: Report, t: State)
    requires Inv(me, s) && CpStep(me, s, OtherReport(r), t)
    ensures Inv(me, t)
  {
    ObjectsStay(s, t);
    SameGrows(s, t);
    SentsStay(me, s, t);
    OtherReportLedger(me, s, r, t);
    hide SentsOk, ObjectsOk, LedgerOk, Handled, CounterRefinement.Recorded, Grows, Caught;
    forall y | Deliverable(t, y) ensures Caught(t, y.tally) { CaughtStays(s, t, y.tally); }
    if s.last.Some? { CaughtStays(s, t, s.last.value.tally); }
    else if !s.restarted { CaughtStays(s, t, map[]); }
  }

  lemma OtherReportLedger(me: Me, s: State, r: Report, t: State)
    requires LedgerOk(me, s) && CpStep(me, s, OtherReport(r), t)
    ensures LedgerOk(me, t)
  {
    if Answer(s.ledger, r) == AppliedReport {
      AcceptedRefines(s.ledger, s.history, r, t.ledger);
      hide Refines, RecordItems, ApplyItems;
      forall k ensures (me.At(k) in t.history <==> me.At(k) in s.history)
        ensures me.At(k) in s.history ==> t.history[me.At(k)] == s.history[me.At(k)]
      {
        RecordedElsewhere(s.history, r.dp, r.generation, r.items, FirstContact(s.ledger, r), me.At(k));
      }
      if s.last.Some? {
        forall k ensures Marked(me, t.history, t.base, s.last.value.tally, k) {
          assert Marked(me, s.history, s.base, s.last.value.tally, k);
          forall key ensures MarkedAt(me, t.history, t.base, s.last.value.tally, k, key) {
            assert MarkedAt(me, s.history, s.base, s.last.value.tally, k, key);
          }
        }
      }
    }
  }

  lemma RestartInv(me: Me, s: State, t: State)
    requires Inv(me, s) && CpStep(me, s, CpRestart, t)
    ensures Inv(me, t)
  {
    ObjectsStay(s, t);
    SameGrows(s, t);
    SentsStay(me, s, t);
    hide SentsOk, ObjectsOk, AllCaught, Grows;
    EmptyRefines();
  }

  lemma EmptyRefines()
    ensures Refines(EMPTY, map[])
  {
  }

  lemma NextInv(me: Me, s: State, step: Step, t: State)
    requires Inv(me, s) && Next(me, s, step, t)
    ensures Inv(me, t)
  {
    hide Inv, ObjectStep, FlushStep, CpStep;
    if ObjectStep(s, step, t) {
      ObjectStepInv(me, s, step, t);
    } else if FlushStep(me, s, step, t) {
      FlushStepInv(me, s, step, t);
    } else {
      CpStepInv(me, s, step, t);
    }
  }

  lemma FlushStepInv(me: Me, s: State, step: Step, t: State)
    requires Inv(me, s) && FlushStep(me, s, step, t)
    ensures Inv(me, t)
  {
    hide Inv;
    match step
    case Flush(x) => FlushInv(me, s, x, t);
    case Acked => AckedInv(me, s, t);
    case GiveUp => GiveUpInv(me, s, t);
  }

  lemma CpStepInv(me: Me, s: State, step: Step, t: State)
    requires Inv(me, s) && CpStep(me, s, step, t)
    ensures Inv(me, t)
  {
    hide Inv;
    match step
    case Deliver(x) => DeliverInv(me, s, x, t);
    case OtherReport(r) => OtherReportInv(me, s, r, t);
    case CpRestart => RestartInv(me, s, t);
  }

  lemma {:induction false} RunInv(me: Me, states: seq<State>, steps: seq<Step>, n: nat)
    requires Run(me, states, steps) && n < |states|
    ensures Inv(me, states[n])
  {
    if n > 0 {
      hide Inv, Next, Init;
      RunInv(me, states, steps, n - 1);
      NextInv(me, states[n - 1], steps[n - 1], states[n]);
    }
  }

  // ---------------------------------------------------------------- conservation

  function OurOrigins(me: Me, h: History): set<Origin> {
    set o | o in h && o.dp == me.dp && o.generation == me.generation
  }

  /** What the ledger shows for one worker on account of our reports, and on account of all others. */
  ghost function OurShare(me: Me, h: History, worker: WorkerId, key: CounterKey): nat {
    SumOver(OurOrigins(me, h), (o: Origin) => FlatShare(h, worker, key, o))
  }

  ghost function OthersShare(me: Me, h: History, worker: WorkerId, key: CounterKey): nat {
    SumOver(h.Keys - OurOrigins(me, h), (o: Origin) => FlatShare(h, worker, key, o))
  }

  /** One counter of one worker, over every object of a tally. */
  ghost function TallySum(tally: Tally, worker: WorkerId, key: CounterKey): nat {
    SumOver(tally.Keys, (k: SegmentKey) => TallyShare(tally, worker, key, k))
  }

  function TallyShare(tally: Tally, worker: WorkerId, key: CounterKey, k: SegmentKey): nat {
    if k.0 == worker then TallyOf(tally, k, key) else 0
  }

  function SegmentsOf(origins: set<Origin>): set<SegmentKey> {
    set o | o in origins :: o.segment
  }

  lemma {:induction false} SumByObject(
      me: Me, h: History, origins: set<Origin>, f: Origin -> nat, g: SegmentKey -> nat)
    requires origins <= OurOrigins(me, h)
    requires forall o :: o in origins ==> f(o) == g(o.segment)
    ensures SumOver(origins, f) == SumOver(SegmentsOf(origins), g)
  {
    if origins != {} {
      var o :| o in origins;
      SumSplit(origins, f, o);
      assert o.segment in SegmentsOf(origins);
      SumSplit(SegmentsOf(origins), g, o.segment);
      forall p | p in origins && p != o ensures p.segment != o.segment {
        assert p == me.At(p.segment) && o == me.At(o.segment);
      }
      assert SegmentsOf(origins - {o}) == SegmentsOf(origins) - {o.segment};
      SumByObject(me, h, origins - {o}, f, g);
    }
  }

  lemma SharesAddUp(me: Me, h: History, worker: WorkerId, key: CounterKey)
    ensures FlatTotal(h, worker, key) == OurShare(me, h, worker, key) + OthersShare(me, h, worker, key)
  {
    SumUnion(OurOrigins(me, h), h.Keys - OurOrigins(me, h), (o: Origin) => FlatShare(h, worker, key, o));
    assert OurOrigins(me, h) + (h.Keys - OurOrigins(me, h)) == h.Keys;
  }

  /** Object by object, what the history credits is the tally minus the base. */
  lemma CreditOfOne(me: Me, s: State, worker: WorkerId, key: CounterKey, k: SegmentKey)
    requires LedgerOk(me, s) && s.last.Some?
    ensures FlatShare(s.history, worker, key, me.At(k)) + TallyShare(s.base, worker, key, k) ==
      TallyShare(s.last.value.tally, worker, key, k)
    ensures me.At(k) in s.history ==> k in s.last.value.tally
  {
    assert Marked(me, s.history, s.base, s.last.value.tally, k);
    assert MarkedAt(me, s.history, s.base, s.last.value.tally, k, key);
  }

  /** And so are the sums. */
  lemma MarksAddUp(me: Me, s: State, worker: WorkerId, key: CounterKey)
    requires LedgerOk(me, s) && s.last.Some?
    ensures OurShare(me, s.history, worker, key) + TallySum(s.base, worker, key) ==
      TallySum(s.last.value.tally, worker, key)
  {
    hide LedgerOk, FlatShare, SumOver;
    var h, tally, base := s.history, s.last.value.tally, s.base;
    var credit := (k: SegmentKey) => FlatShare(h, worker, key, me.At(k));
    var f, g := (k: SegmentKey) => TallyShare(base, worker, key, k), (k: SegmentKey) => TallyShare(tally, worker, key, k);
    var ours := SegmentsOf(OurOrigins(me, h));
    var all := ours + tally.Keys + base.Keys;
    SumByObject(me, h, OurOrigins(me, h), (o: Origin) => FlatShare(h, worker, key, o), credit);
    forall k | k in all - ours ensures credit(k) == 0 {
      NotOurs(me, h, worker, key, k);
    }
    SumWiden(ours, all, credit);
    SumWiden(base.Keys, all, f);
    SumWiden(tally.Keys, all, g);
    var zero := (k: SegmentKey) => 0;
    forall k | k in all ensures credit(k) + f(k) == g(k) + zero(k) {
      CreditOfOne(me, s, worker, key, k);
    }
    SumBalance(all, credit, f, g, zero);
    SumWiden({}, all, zero);
    SumNothing(zero);
  }

  lemma NotOurs(me: Me, h: History, worker: WorkerId, key: CounterKey, k: SegmentKey)
    requires k !in SegmentsOf(OurOrigins(me, h))
    ensures FlatShare(h, worker, key, me.At(k)) == 0
  {
  }

  /**
   End-to-end conservation. Whatever was lost, repeated, delayed, deleted or replaced on the way: once a
   control plane has accepted a report of ours, what it displays for a worker is what all others
   contribute plus what every object we ever held for that worker had counted when that report was
   built, minus the same sum at first contact.
   */
  lemma CountersAreConserved(me: Me, states: seq<State>, steps: seq<Step>, n: nat, worker: WorkerId, key: CounterKey)
    requires Run(me, states, steps) && n < |states| && states[n].last.Some?
    ensures var s := states[n];
      Total(s.ledger, worker, key) + TallySum(s.base, worker, key) ==
      OthersShare(me, s.history, worker, key) + TallySum(s.last.value.tally, worker, key)
  {
    RunInv(me, states, steps, n);
    MarksAddUp(me, states[n], worker, key);
    SharesAddUp(me, states[n].history, worker, key);
  }

  /** The moment of acceptance: the tally is of the objects as they were when the report was built. */
  lemma {:induction false} AcceptedTallyWasTaken(me: Me, states: seq<State>, steps: seq<Step>, n: nat, x: Sent)
    requires Run(me, states, steps) && n < |states| && x in states[n].Sents()
    ensures exists m :: 0 <= m < n && steps[m] == Flush(x) && x.tally == TallyNow(states[m].objects)
  {
    if n > 0 {
      var s, t := states[n - 1], states[n];
      assert Next(me, s, steps[n - 1], t);
      if x in s.Sents() {
        AcceptedTallyWasTaken(me, states, steps, n - 1, x);
      }
    }
  }

  /** An object is given up only when nothing it counted can be missing from the display. */
  lemma GoneObjectsAreCounted(me: Me, states: seq<State>, steps: seq<Step>, n: nat, k: SegmentKey, key: CounterKey)
    requires Run(me, states, steps) && n < |states| && states[n].last.Some? && states[n].Gone(k)
    ensures Get(states[n].objects[k].counters, key) == TallyOf(states[n].last.value.tally, k, key)
  {
    RunInv(me, states, steps, n);
    assert CaughtOne(states[n], states[n].last.value.tally, k);
  }
}
