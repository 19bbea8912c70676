/**
 The supervisor: it spawns one process per data-plane slot, reaps the dead, folds and reclaims their
 admission slots before a successor starts, and stops when one slot keeps dying young.
 */
module Supervisor {
  import opened RouterTypes
  import opened AdmissionBound
  import opened SharedAdmission
  import opened Sums
  import Seqlock

  datatype DataPlaneSlot = DataPlaneSlot(generation: nat, pid: nat, rapidDeaths: nat)

  /** One entry of the history of everything ever spawned. */
  datatype Spawned = Spawned(index: nat, generation: nat, pid: nat)

  /** How many of the latest deaths in a row were rapid ones. */
  function Trailing(deaths: seq<bool>): nat {
    if deaths == [] || !deaths[|deaths| - 1] then 0 else 1 + Trailing(deaths[..|deaths| - 1])
  }

  lemma {:induction false} TrailingMeans(deaths: seq<bool>, count: nat)
    ensures Trailing(deaths) <= |deaths|
    ensures count <= Trailing(deaths) <==>
      count <= |deaths| && forall k :: |deaths| - count <= k < |deaths| ==> deaths[k]
  {
    if deaths != [] {
      var n := |deaths| - 1;
      if count > 0 {
        TrailingMeans(deaths[..n], count - 1);
        assert forall k :: 0 <= k < n ==> deaths[..n][k] == deaths[k];
        assert deaths[n] ==> (count <= Trailing(deaths) <==> count - 1 <= Trailing(deaths[..n]));
      } else {
        TrailingMeans(deaths[..n], 0);
      }
    }
  }

  lemma TrailingNext(deaths: seq<bool>, rapid: bool)
    ensures Trailing(deaths + [rapid]) == if rapid then Trailing(deaths) + 1 else 0
  {
    assert (deaths + [rapid])[..|deaths|] == deaths;
  }

  /** What the supervisor and the operating system know: the slots, the live processes, and the past. */
  datatype Book = Book(
    slots: map<nat, DataPlaneSlot>, running: set<nat>, nextPid: nat, history: seq<Spawned>, deaths: map<nat, seq<bool>>)

  ghost predicate SlotOk(b: Book, i: nat)
    requires i in b.slots && i in b.deaths
  {
    && Spawned(i, b.slots[i].generation, b.slots[i].pid) in b.history
    && b.slots[i].generation == |b.deaths[i]| + 1
    && b.slots[i].rapidDeaths == Trailing(b.deaths[i])
  }

  ghost predicate PastOk(b: Book, h: Spawned) {
    && h.index in b.slots && h.pid < b.nextPid && h.generation <= b.slots[h.index].generation
    && (h.pid in b.running ==> h.pid == b.slots[h.index].pid)
  }

  ghost predicate InOrder(g: Spawned, h: Spawned) {
    g.pid < h.pid && (g.index == h.index ==> g.generation < h.generation)
  }

  /**
   Every slot's process is its latest and every other one ever spawned for it is dead; generations count
   up one by one per slot; and the rapid-death count is that of the latest deaths.
   */
  ghost predicate BookOk(b: Book) {
    && b.deaths.Keys == b.slots.Keys
    && (forall i :: i in b.slots ==> SlotOk(b, i))
    && (forall h :: h in b.history ==> PastOk(b, h))
    && (forall j, k :: 0 <= j < k < |b.history| ==> InOrder(b.history[j], b.history[k]))
    && (forall p :: p in b.running ==> p < b.nextPid)
  }

  function WithSpawn(b: Book, index: nat, generation: nat, rapidDeaths: nat, deaths: seq<bool>): Book {
    Book(b.slots[index := DataPlaneSlot(generation, b.nextPid, rapidDeaths)], b.running + {b.nextPid}, b.nextPid + 1,
         b.history + [Spawned(index, generation, b.nextPid)], b.deaths[index := deaths])
  }

  /** A slot never has two live processes, and no two processes of a slot share a generation. */
  lemma OneLivePerSlot(b: Book, g: Spawned, h: Spawned)
    requires BookOk(b) && g in b.history && h in b.history && g.index == h.index
    ensures g.pid in b.running && h.pid in b.running ==> g == h
    ensures g.generation == h.generation ==> g == h
    ensures g.pid in b.running ==> h.generation <= g.generation
  {
  }

  /** The first spawn of a slot, and the replacement of a dead process, keep the book. */
  lemma SpawnKeeps(b: Book, index: nat, generation: nat, rapidDeaths: nat, deaths: seq<bool>)
    requires BookOk(b) && generation == |deaths| + 1 && rapidDeaths == Trailing(deaths)
    requires index in b.slots ==> b.slots[index].pid !in b.running && generation > b.slots[index].generation
    ensures BookOk(WithSpawn(b, index, generation, rapidDeaths, deaths))
  {
    hide Trailing, PastOk, InOrder, SlotOk;
    var t := WithSpawn(b, index, generation, rapidDeaths, deaths);
    SpawnKeepsPast(b, index, generation, rapidDeaths, deaths);
    SpawnKeepsOrder(b, Spawned(index, generation, b.nextPid));
    forall i | i in t.slots ensures SlotOk(t, i) {
      SpawnKeepsSlot(b, index, generation, rapidDeaths, deaths, i);
    }
  }

  lemma SpawnKeepsSlot(b: Book, index: nat, generation: nat, rapidDeaths: nat, deaths: seq<bool>, i: nat)
    requires b.deaths.Keys == b.slots.Keys && (i == index || (i in b.slots && SlotOk(b, i)))
    requires generation == |deaths| + 1 && rapidDeaths == Trailing(deaths)
    ensures SlotOk(WithSpawn(b, index, generation, rapidDeaths, deaths), i)
  {
    hide Trailing;
    var t := WithSpawn(b, index, generation, rapidDeaths, deaths);
    assert t.history[|b.history|] == Spawned(index, generation, b.nextPid);
  }

  lemma SpawnKeepsPast(b: Book, index: nat, generation: nat, rapidDeaths: nat, deaths: seq<bool>)
    requires BookOk(b)
    requires index in b.slots ==> b.slots[index].pid !in b.running && generation > b.slots[index].generation
    ensures var t := WithSpawn(b, index, generation, rapidDeaths, deaths); forall h :: h in t.history ==> PastOk(t, h)
  {
    hide SlotOk, InOrder, Trailing;
    var t := WithSpawn(b, index, generation, rapidDeaths, deaths);
    forall h | h in t.history ensures PastOk(t, h) {
      if h in b.history { assert PastOk(b, h); }
    }
  }

  /** The newest process has the largest number, and the largest generation of its slot. */
  lemma SpawnKeepsOrder(b: Book, s: Spawned)
    requires BookOk(b) && s.pid == b.nextPid
    requires s.index in b.slots ==> s.generation > b.slots[s.index].generation
    ensures var history := b.history + [s];
      forall j, k :: 0 <= j < k < |history| ==> InOrder(history[j], history[k])
  {
    hide SlotOk, Trailing;
    var history := b.history + [s];
    forall j, k | 0 <= j < k < |history| ensures InOrder(history[j], history[k]) {
      assert history[j] == b.history[j] && PastOk(b, b.history[j]);
      if k < |b.history| { assert InOrder(b.history[j], b.history[k]); }
    }
  }

  /** The control plane is a child of its own, outside the slots. */
  function WithCp(b: Book): Book {
    b.(running := b.running + {b.nextPid}, nextPid := b.nextPid + 1)
  }

  lemma CpSpawnKeeps(b: Book)
    requires BookOk(b)
    ensures BookOk(WithCp(b))
  {
    hide Trailing;
    var t := WithCp(b);
    forall h | h in t.history ensures PastOk(t, h) { assert PastOk(b, h); }
    forall i | i in t.slots ensures SlotOk(t, i) { assert SlotOk(b, i); }
  }

  // ---------------------------------------------------------------- one poll over the slots

  /** Every slot has a process, known before the poll. */
  ghost predicate Complete(b: Book, n: nat) {
    forall j: nat :: j < n ==> j in b.slots && j in b.deaths && b.slots[j].pid < b.nextPid
  }

  /** How one slot came through a poll: untouched if its process ran, else replaced by the next generation. */
  ghost predicate Polled(before: Book, now: Book, j: nat, rapid: bool, max: nat)
    requires j in before.slots && j in before.deaths && j in now.slots && j in now.deaths
  {
    && now.slots[j].pid in now.running
    && if before.slots[j].pid in before.running then
         now.slots[j] == before.slots[j] && now.deaths[j] == before.deaths[j]
       else
         && now.slots[j].generation == before.slots[j].generation + 1
         && now.deaths[j] == before.deaths[j] + [rapid] && Trailing(now.deaths[j]) < max
  }

  /** The first `i` slots are polled, the others as they were. */
  ghost predicate Progress(before: Book, now: Book, i: nat, rapid: seq<bool>, max: nat)
    requires Complete(before, |rapid|)
  {
    && before.nextPid <= now.nextPid && before.running <= now.running
    && (forall p :: p in now.running && p < before.nextPid ==> p in before.running)
    && forall j: nat :: j < |rapid| ==>
         && j in now.slots && j in now.deaths
         && if j < i then Polled(before, now, j, rapid[j], max)
            else now.slots[j] == before.slots[j] && now.deaths[j] == before.deaths[j]
  }

  /** The process in slot `i` is dead, and this death is one rapid one too many in a row. */
  predicate TooRapid(b: Book, i: nat, rapid: seq<bool>, max: nat) {
    && i < |rapid| && i in b.slots && i in b.deaths && b.slots[i].pid !in b.running
    && Trailing(b.deaths[i] + [rapid[i]]) >= max
  }

  /** A round of slots came as far as `upto`: to the end, or past the first slot that stops it. */
  predicate RoundEnds(b: Book, rapid: seq<bool>, max: nat, failed: bool, upto: nat) {
    && upto <= |rapid|
    && (if failed then upto > 0 && TooRapid(b, upto - 1, rapid, max) else upto == |rapid|)
    && forall i: nat :: i < upto && (failed ==> i < upto - 1) ==> !TooRapid(b, i, rapid, max)
  }

  lemma RoundStopped(b: Book, rapid: seq<bool>, max: nat, failed: bool, upto: nat)
    requires RoundEnds(b, rapid, max, failed, upto)
    ensures failed <==> exists i: nat :: TooRapid(b, i, rapid, max)
  {
  }

  lemma RunningStays(before: Book, now: Book, i: nat, rapid: seq<bool>, max: nat)
    requires Complete(before, |rapid|) && i < |rapid| && Progress(before, now, i, rapid, max)
    ensures i in now.slots && i in now.deaths && now.slots[i] == before.slots[i] && now.deaths[i] == before.deaths[i]
    ensures now.slots[i].pid in now.running <==> before.slots[i].pid in before.running
    ensures now.slots[i].pid in now.running ==> Progress(before, now, i + 1, rapid, max)
  {
    hide Trailing;
  }

  lemma ReplacedProgress(before: Book, now: Book, i: nat, rapid: seq<bool>, max: nat)
    requires Complete(before, |rapid|) && i < |rapid| && Progress(before, now, i, rapid, max)
    requires i in now.slots && i in now.deaths && now.slots[i].pid !in now.running
    requires Trailing(now.deaths[i] + [rapid[i]]) < max
    ensures var past := now.deaths[i] + [rapid[i]];
      Progress(before, WithSpawn(now, i, now.slots[i].generation + 1, Trailing(past), past), i + 1, rapid, max)
  {
    hide Trailing;
  }

  lemma DeathKeeps(b: Book, pid: nat)
    requires BookOk(b)
    ensures BookOk(b.(running := b.running - {pid}))
  {
  }

  // ---------------------------------------------------------------- what polling does to the admission slots

  /** The slots before `upto` whose process is dead. */
  function DeadSlots(b: Book, upto: nat): set<nat> {
    set i: nat | i < upto && i in b.slots && b.slots[i].pid !in b.running
  }

  predicate Cleared(before: SlotView, now: SlotView) {
    now == SlotView(now.seqno, 0, 0, 0, 0, 0) && now.Readable() && now.seqno > before.seqno
  }

  /** What a dead owner left unreadable, or nothing. */
  function Torn(view: SlotView): nat {
    if view.Readable() then 0 else view.rejected
  }

  ghost function TornRejections(slots: seq<SlotView>, dead: set<nat>): nat {
    SumOver(dead, (i: nat) => if i < |slots| then Torn(slots[i]) else 0)
  }

  /**
   The slots of the dead were folded into the last one, the retired slot, and cleared; those of the running
   are as they were. Only what a dead owner left torn drops out of the sum of all rejections.
   */
  ghost predicate Folded(before: seq<SlotView>, now: seq<SlotView>, dead: set<nat>) {
    && |now| == |before| > 0 && (forall i :: i in dead ==> i < |before| - 1)
    && var retired := |before| - 1;
    && (forall i :: i in dead ==> Cleared(before[i], now[i]))
    && (forall i :: 0 <= i < retired && i !in dead ==> now[i] == before[i])
    && if !before[retired].Readable() then now[retired] == before[retired]
       else
         && now[retired].Readable()
         && Sum(Rejections(now)) + TornRejections(before, dead) == Sum(Rejections(before))
         && before[retired].peak <= now[retired].peak
         && (forall i :: i in dead && before[i].Readable() ==> before[i].peak <= now[retired].peak)
         && (now[retired].peak == before[retired].peak ||
             exists i :: i in dead && before[i].Readable() && now[retired].peak == before[i].peak)
  }

  lemma NothingFolded(slots: seq<SlotView>)
    requires slots != []
    ensures Folded(slots, slots, {})
  {
    SumNothing((i: nat) => if i < |slots| then Torn(slots[i]) else 0);
  }

  lemma OneMoreTorn(slots: seq<SlotView>, dead: set<nat>, index: nat)
    requires index < |slots| && index !in dead
    ensures TornRejections(slots, dead + {index}) == TornRejections(slots, dead) + Torn(slots[index])
  {
    var f := (i: nat) => if i < |slots| then Torn(slots[i]) else 0;
    SumSplit(dead + {index}, f, index);
    assert dead + {index} - {index} == dead;
  }

  lemma {:induction false} NoneTorn(slots: seq<SlotView>, dead: set<nat>)
    requires forall i :: i in dead ==> i < |slots| && slots[i].Readable()
    ensures TornRejections(slots, dead) == 0
    decreases |dead|
  {
    if dead == {} {
      SumNothing((i: nat) => if i < |slots| then Torn(slots[i]) else 0);
    } else {
      var i :| i in dead;
      NoneTorn(slots, dead - {i});
      assert dead - {i} + {i} == dead;
      OneMoreTorn(slots, dead - {i}, i);
    }
  }

  /** One poll loses no rejection of a data plane that did not die in the middle of a write. */
  lemma FoldingConserves(before: seq<SlotView>, now: seq<SlotView>, dead: set<nat>)
    requires Folded(before, now, dead) && before[|before| - 1].Readable()
    ensures Sum(Rejections(now)) <= Sum(Rejections(before))
    ensures (forall i :: i in dead ==> before[i].Readable()) ==> Sum(Rejections(now)) == Sum(Rejections(before))
  {
    if forall i :: i in dead ==> before[i].Readable() { NoneTorn(before, dead); }
  }

  /** Folding one more dead slot into what was folded so far. */
  lemma FoldOneMore(before: seq<SlotView>, mid: seq<SlotView>, now: seq<SlotView>, dead: set<nat>, index: nat)
    requires Folded(before, mid, dead) && index < |before| - 1 && index !in dead && Folded(mid, now, {index})
    ensures Folded(before, now, dead + {index})
  {
    hide Sum, Rejections, TornRejections;
    OneMoreTorn(before, dead, index);
    OneTorn(mid, index);
    assert mid[index] == before[index];
  }

  lemma OneTorn(slots: seq<SlotView>, index: nat)
    requires index < |slots|
    ensures TornRejections(slots, {index}) == Torn(slots[index])
  {
    SumNothing((i: nat) => if i < |slots| then Torn(slots[i]) else 0);
    assert {} + {index} == {index};
    OneMoreTorn(slots, {}, index);
  }

  /** What folding one slot does, put together. */
  lemma OneFolded(before: seq<SlotView>, now: seq<SlotView>, index: nat)
    requires |now| == |before| && index < |before| - 1
    requires Cleared(before[index], now[index])
    requires forall k :: 0 <= k < |before| - 1 && k != index ==> now[k] == before[k]
    requires var was, kept := before[|before| - 1], now[|before| - 1];
      if before[index].Readable() && was.Readable() then
        && kept.Readable() && kept.peak == (if was.peak < before[index].peak then before[index].peak else was.peak)
        && Sum(Rejections(now)) == Sum(Rejections(before))
      else kept == was && Sum(Rejections(now)) + before[index].rejected == Sum(Rejections(before))
    ensures Folded(before, now, {index})
  {
    hide Sum, Rejections, TornRejections;
    OneTorn(before, index);
  }

  class RouterSupervisor {
    const processes: nat
    const maxRapidRestarts: nat
    const admission: array<SlotView>
    var dpSlots: map<nat, DataPlaneSlot>
    var running: set<nat>
    var nextPid: nat
    var cpPid: nat
    var cpRapidDeaths: nat
    var cpEpoch: nat
    ghost var history: seq<Spawned>
    ghost var deaths: map<nat, seq<bool>>
    ghost var cpDeaths: seq<bool>

    ghost function View(): Book
      reads this
    {
      Book(dpSlots, running, nextPid, history, deaths)
    }

    ghost predicate Valid()
      reads this
    {
      && BookOk(View()) && admission.Length == processes + 1
      && (forall i :: i in dpSlots ==> 0 <= i < processes)
      && cpRapidDeaths == Trailing(cpDeaths) && cpEpoch == |cpDeaths|
    }

    constructor (processes: nat, maxRapidRestarts: nat, admission: array<SlotView>)
      requires admission.Length == processes + 1
      ensures Valid() && dpSlots == map[] && history == []
      ensures this.processes == processes && this.maxRapidRestarts == maxRapidRestarts && this.admission == admission
    {
      this.processes, this.maxRapidRestarts, this.admission := processes, maxRapidRestarts, admission;
      dpSlots, running, nextPid := map[], {}, 0;
      cpPid, cpRapidDeaths, cpEpoch, cpDeaths := 0, 0, 0, [];
      history, deaths := [], map[];
    }

    /** Only a slot whose process is dead, or that has none yet, is given a new one. */
    method SpawnDpSlot(index: nat, generation: nat, rapidDeaths: nat, ghost past: seq<bool>)
      requires Valid() && index < processes
      requires index in dpSlots ==> dpSlots[index].pid !in running && generation > dpSlots[index].generation
      requires generation == |past| + 1 && rapidDeaths == Trailing(past)
      modifies this`dpSlots, this`running, this`nextPid, this`history, this`deaths
      ensures Valid() && View() == WithSpawn(old(View()), index, generation, rapidDeaths, past)
    {
      hide BookOk, Trailing;
      SpawnKeeps(View(), index, generation, rapidDeaths, past);
      history := history + [Spawned(index, generation, nextPid)];
      deaths := deaths[index := past];
      dpSlots := dpSlots[index := DataPlaneSlot(generation, nextPid, rapidDeaths)];
      running := running + {nextPid};
      nextPid := nextPid + 1;
    }

    method SpawnCp(epoch: nat, ghost past: seq<bool>)
      requires BookOk(View()) && admission.Length == processes + 1 && forall i :: i in dpSlots ==> 0 <= i < processes
      requires cpRapidDeaths == Trailing(past) && epoch == |past|
      modifies this`running, this`nextPid, this`cpPid, this`cpEpoch, this`cpDeaths
      ensures Valid() && View() == WithCp(old(View())) && cpPid == old(nextPid) && cpEpoch == epoch && cpDeaths == past
    {
      hide BookOk, Trailing;
      CpSpawnKeeps(View());
      cpEpoch, cpDeaths, cpPid := epoch, past, nextPid;
      running, nextPid := running + {nextPid}, nextPid + 1;
    }

    /** The control plane first, then one process of generation 1 per slot. */
    method Start()
      requires Valid() && dpSlots == map[]
      modifies this`dpSlots, this`running, this`nextPid, this`history, this`deaths, this`cpPid, this`cpEpoch, this`cpDeaths
      ensures Valid() && forall i :: i in dpSlots <==> 0 <= i < processes
      ensures forall i :: 0 <= i < processes ==> dpSlots[i].generation == 1 && dpSlots[i].pid in running
      ensures cpPid in running && cpPid < nextPid && Complete(View(), processes)
    {
      hide BookOk, Trailing, Complete;
      SpawnCp(cpEpoch, cpDeaths);
      assert Trailing([]) == 0 by { TrailingMeans([], 0); }
      for i := 0 to processes
        invariant Valid() && forall j :: j in dpSlots <==> 0 <= j < i
        invariant forall j :: 0 <= j < i ==> dpSlots[j].generation == 1 && dpSlots[j].pid in running
        invariant cpPid in running && cpPid < nextPid
      {
        SpawnDpSlot(i, 1, 0, []);
      }
      AllComplete(View(), processes);
    }

    /** Any process may die at any time; none comes back. */
    method Dies(pid: nat)
      requires Valid()
      modifies this`running
      ensures Valid() && running == old(running) - {pid}
    {
      DeathKeeps(View(), pid);
      running := running - {pid};
    }

    /**
     Moves a dead owner's rejections and peak into the retired slot, then clears the slot. A slot its
     owner left torn cannot be read: it is cleared and nothing is moved.
     */
    method FoldAndReclaimSlot(index: nat)
      requires admission.Length == processes + 1 && index < processes
      requires index in dpSlots && dpSlots[index].pid !in running
      modifies admission
      ensures admission[index] == SlotView(admission[index].seqno, 0, 0, 0, 0, 0)
      ensures admission[index].Readable() && admission[index].seqno > old(admission[index].seqno)
      ensures forall k :: 0 <= k < processes && k != index ==> admission[k] == old(admission[k])
      ensures old(admission[index].Readable() && admission[processes].Readable()) ==>
        && admission[processes].Readable() && admission[processes].seqno > old(admission[processes].seqno)
        && admission[processes].peak >= old(admission[index].peak) && admission[processes].peak >= old(admission[processes].peak)
        && admission[processes].peak in {old(admission[index].peak), old(admission[processes].peak)}
        && Sum(Rejections(admission[..])) == Sum(Rejections(old(admission[..])))
      ensures !old(admission[index].Readable() && admission[processes].Readable()) ==>
        && admission[processes] == old(admission[processes])
        && Sum(Rejections(admission[..])) + old(admission[index].rejected) == Sum(Rejections(old(admission[..])))
      ensures Folded(old(admission[..]), admission[..], {index})
    {
      hide Folded;
      var view, accumulated := admission[index], admission[processes];
      if view.seqno % 2 == 1 || accumulated.seqno % 2 == 1 {
        ghost var torn := Rejections(admission[..]);
        admission[index] := SlotView(Seqlock.Marker(view.seqno) + 1, 0, 0, 0, 0, 0);
        SumUpdate(torn, index, 0);
        assert Rejections(admission[..]) == torn[index := 0];
        OneFolded(old(admission[..]), admission[..], index);
        return;
      }
      ghost var before := Rejections(admission[..]);
      var marker := Seqlock.Marker(accumulated.seqno);
      var peak := if accumulated.peak < view.peak then view.peak else accumulated.peak;
      admission[processes] := SlotView(marker, 0, peak, accumulated.rejected + view.rejected, 0, 0);
      admission[index] := SlotView(Seqlock.Marker(view.seqno) + 1, 0, 0, 0, 0, 0);
      admission[processes] := admission[processes].(seqno := marker + 1);
      SumUpdate(before, processes, accumulated.rejected + view.rejected);
      SumUpdate(before[processes := accumulated.rejected + view.rejected], index, 0);
      assert Rejections(admission[..]) == before[processes := accumulated.rejected + view.rejected][index := 0];
      OneFolded(old(admission[..]), admission[..], index);
    }

    /** One dead child: reaped, folded and reclaimed, counted, and replaced unless it keeps dying young. */
    method Replace(index: nat, rapid: bool) returns (failed: bool)
      requires Valid() && index in dpSlots && dpSlots[index].pid !in running
      modifies this`dpSlots, this`running, this`nextPid, this`history, this`deaths, admission
      ensures index in old(deaths) && failed <==> Trailing(old(deaths)[index] + [rapid]) >= maxRapidRestarts
      ensures failed ==> history == old(history) && running == old(running)
      ensures !failed ==> Valid() && View() == WithSpawn(old(View()), index, old(dpSlots)[index].generation + 1,
        Trailing(old(deaths)[index] + [rapid]), old(deaths)[index] + [rapid])
      ensures Folded(old(admission[..]), admission[..], {index})
    {
      hide BookOk, Trailing;
      SlotKnown(View(), index);
      FoldAndReclaimSlot(index);
      var slot := dpSlots[index];
      var count := if rapid then slot.rapidDeaths + 1 else 0;
      ghost var past := deaths[index] + [rapid];
      TrailingNext(deaths[index], rapid);
      if count >= maxRapidRestarts {
        dpSlots := dpSlots[index := slot.(rapidDeaths := count)];
        return true;
      }
      SpawnDpSlot(index, slot.generation + 1, count, past);
      return false;
    }

    /** One slot of a poll that has come this far from `before` and from the admission slots `slots`. */
    method PollSlot(i: nat, rapid: seq<bool>, ghost before: Book, ghost slots: seq<SlotView>) returns (failed: bool)
      requires Valid() && |rapid| == processes && i < processes && Complete(before, processes)
      requires Progress(before, View(), i, rapid, maxRapidRestarts)
      requires |slots| == processes + 1 && Folded(slots, admission[..], DeadSlots(before, i))
      modifies this`dpSlots, this`running, this`nextPid, this`history, this`deaths, admission
      ensures failed <==> TooRapid(before, i, rapid, maxRapidRestarts)
      ensures !failed ==> Valid() && Progress(before, View(), i + 1, rapid, maxRapidRestarts)
      ensures Folded(slots, admission[..], DeadSlots(before, i + 1))
    {
      hide BookOk, Trailing, Progress, Folded, DeadSlots;
      ghost var now, mid := View(), admission[..];
      RunningStays(before, now, i, rapid, maxRapidRestarts);
      OneMoreDead(before, i);
      if dpSlots[i].pid in running {
        return false;
      }
      failed := Replace(i, rapid[i]);
      FoldOneMore(slots, mid, admission[..], DeadSlots(before, i), i);
      if !failed {
        ReplacedProgress(before, now, i, rapid, maxRapidRestarts);
      }
    }

    /** The slots of one poll. */
    method PollSlots(rapid: seq<bool>) returns (failed: bool, ghost upto: nat)
      requires Valid() && |rapid| == processes && Complete(View(), processes)
      modifies this`dpSlots, this`running, this`nextPid, this`history, this`deaths, admission
      ensures RoundEnds(old(View()), rapid, maxRapidRestarts, failed, upto)
      ensures !failed ==> Valid() && Progress(old(View()), View(), processes, rapid, maxRapidRestarts)
      ensures Folded(old(admission[..]), admission[..], DeadSlots(old(View()), upto))
    {
      hide BookOk, Trailing, Progress, Folded, TooRapid, DeadSlots, Complete, Polled;
      ghost var before, slots := View(), admission[..];
      NoProgress(before, rapid, maxRapidRestarts);
      NothingFolded(slots);
      NoneDeadYet(before);
      for i := 0 to processes
        invariant Valid() && Progress(before, View(), i, rapid, maxRapidRestarts)
        invariant Folded(slots, admission[..], DeadSlots(before, i))
        invariant forall j: nat :: j < i ==> !TooRapid(before, j, rapid, maxRapidRestarts)
      {
        failed := PollSlot(i, rapid, before, slots);
        if failed {
          return true, i + 1;
        }
      }
      return false, processes;
    }

    /** The control plane's turn: each successor counts in an epoch of its own. */
    method PollControlPlane(rapid: bool) returns (failed: bool)
      requires Valid()
      modifies this`running, this`nextPid, this`cpPid, this`cpRapidDeaths, this`cpEpoch, this`cpDeaths
      ensures dpSlots == old(dpSlots) && history == old(history) && deaths == old(deaths)
      ensures failed <==> old(cpPid !in running) && Trailing(old(cpDeaths) + [rapid]) >= maxRapidRestarts
      ensures old(cpPid in running) ==> Valid() && unchanged(this)
      ensures old(cpPid !in running) && !failed ==>
        && Valid() && View() == WithCp(old(View())) && cpPid == old(nextPid)
        && cpDeaths == old(cpDeaths) + [rapid] && cpEpoch == old(cpEpoch) + 1
    {
      if cpPid in running {
        return false;
      }
      hide BookOk, Trailing;
      TrailingNext(cpDeaths, rapid);
      cpRapidDeaths := if rapid then cpRapidDeaths + 1 else 0;
      if cpRapidDeaths >= maxRapidRestarts {
        return true;
      }
      SpawnCp(cpEpoch + 1, cpDeaths + [rapid]);
      return false;
    }

    /**
     One poll. `rapid` says of each dead child whether it died within the window of its spawn. Children
     that were running are left alone; every dead one is replaced, a data plane by its next generation and
     the control plane by its next epoch, until some child's latest deaths were all rapid
     `maxRapidRestarts` times over, which stops the supervisor. Every dead data plane it came to, the one that
     stopped it included, had its admission slot folded and cleared; `upto` is how far it came.
     */
    method PollOnce(rapid: seq<bool>, cpRapid: bool) returns (failed: bool, ghost upto: nat)
      requires Valid() && |rapid| == processes && Complete(View(), processes) && cpPid < nextPid
      modifies this, admission
      ensures failed <==>
        || (old(cpPid !in running) && Trailing(old(cpDeaths) + [cpRapid]) >= maxRapidRestarts)
        || exists i: nat :: TooRapid(old(View()), i, rapid, maxRapidRestarts)
      ensures exists slotsFailed :: RoundEnds(old(View()), rapid, maxRapidRestarts, slotsFailed, upto)
      ensures Folded(old(admission[..]), admission[..], DeadSlots(old(View()), upto))
      ensures !failed ==>
        && Valid() && Progress(old(View()), View(), processes, rapid, maxRapidRestarts)
        && cpPid in running
        && if old(cpPid in running) then cpPid == old(cpPid) && cpEpoch == old(cpEpoch) && cpDeaths == old(cpDeaths)
           else
             && cpEpoch == old(cpEpoch) + 1 && cpDeaths == old(cpDeaths) + [cpRapid]
             && Trailing(cpDeaths) < maxRapidRestarts
    {
      hide Folded, TooRapid, DeadSlots, RoundEnds;
      ghost var before := View();
      failed, upto := PollSlots(rapid);
      RoundStopped(before, rapid, maxRapidRestarts, failed, upto);
      if failed {
        return;
      }
      ghost var now := View();
      assert cpPid in running <==> cpPid in before.running;
      hide BookOk, Trailing, Polled;
      failed := PollControlPlane(cpRapid);
      assert !failed && View() != now ==> View() == WithCp(now);
      if !failed && View() != now {
        CpProgress(before, now, rapid, maxRapidRestarts);
      }
    }
  }

  lemma NoProgress(before: Book, rapid: seq<bool>, max: nat)
    requires Complete(before, |rapid|)
    ensures Progress(before, before, 0, rapid, max)
  {
  }

  lemma NoneDeadYet(b: Book)
    ensures DeadSlots(b, 0) == {}
  {
  }

  lemma OneMoreDead(b: Book, i: nat)
    requires i in b.slots
    ensures DeadSlots(b, i + 1) == if b.slots[i].pid in b.running then DeadSlots(b, i) else DeadSlots(b, i) + {i}
    ensures i !in DeadSlots(b, i)
  {
  }

  lemma CpProgress(before: Book, now: Book, rapid: seq<bool>, max: nat)
    requires Complete(before, |rapid|) && Progress(before, now, |rapid|, rapid, max)
    ensures Progress(before, WithCp(now), |rapid|, rapid, max)
  {
    hide Trailing;
  }

  lemma SlotKnown(b: Book, i: nat)
    requires BookOk(b) && i in b.slots
    ensures i in b.deaths && b.slots[i].generation == |b.deaths[i]| + 1 && b.slots[i].rapidDeaths == Trailing(b.deaths[i])
  {
    assert SlotOk(b, i);
  }

  lemma PidKnown(b: Book, i: nat)
    requires BookOk(b) && i in b.slots
    ensures b.slots[i].pid < b.nextPid
  {
  }

  lemma AllComplete(b: Book, n: nat)
    requires BookOk(b) && forall i: nat :: i < n ==> i in b.slots
    ensures Complete(b, n)
  {
    forall i: nat | i < n ensures i in b.deaths && b.slots[i].pid < b.nextPid {
      PidKnown(b, i);
    }
  }
}
