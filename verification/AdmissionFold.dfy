/**
 The aggregate `rejected_total`: live data planes raise their slots, the supervisor folds a dead
 one's count into the retired slot, and a reader adds everything up slot by slot, retrying when the
 retired slot's number moved. As in `AdmissionBound`, one slot read is one step on a stable slot.
 */
module AdmissionFold {
  import opened RouterTypes
  import opened AdmissionBound

  /** `value` is the last published count; nobody can read the slot while it is odd. */
  datatype Counter = Counter(value: nat, odd: bool)

  /** A writer's own count is ahead of its slot until the write completes. */
  datatype Owner = Running(local: nat, writing: bool) | Died | Free

  /** Where the supervisor is in folding slot `i`: it has read `view` there and `total` in the retired slot. */
  datatype Fold = NoFold | Read(i: nat, view: nat, total: nat) | Marked(i: nat, view: nat, total: nat)
                | Moved(i: nat, view: nat) | Cleared(i: nat)

  /** `version` is the retired slot's number at the start; `since` and `before` are history: `ever` and `lost` then. */
  datatype Reader = Outside | Adding(version: nat, got: seq<nat>, since: seq<nat>, before: seq<nat>)

  /**
   History, slot by slot: `ever` counts every rejection recorded there, `folded` what was transferred, `lost`
   what dropped out because an owner's death in the middle of a write left the slot unreadable.
   */
  datatype State = State(
    slots: seq<Counter>, owners: seq<Owner>, retired: Counter, retiredSeq: nat, fold: Fold, reader: Reader,
    ever: seq<nat>, folded: seq<nat>, lost: seq<nat>)

  datatype Step =
    | Reject(i: nat)        // counted locally; the slot is written next
    | Touch(i: nat)
    | Mark(i: nat)
    | Finish(i: nat)
    | Die(i: nat)
    | FoldRead(i: nat)
    | FoldMark
    | FoldMove
    | FoldClear
    | FoldEnd
    | ReclaimTorn(i: nat)   // the dead owner's slot is unreadable: its count drops out
    | Spawn(i: nat)
    | ReadVersion
    | ReadSlot
    | Retry
    | Return(total: nat)

  predicate Init(s: State, n: nat) {
    && Sized(s, n)
    && (forall i :: 0 <= i < n ==>
          && s.slots[i] == Counter(0, false) && s.owners[i] == Free
          && s.ever[i] == 0 && s.folded[i] == 0 && s.lost[i] == 0)
    && s.retired == Counter(0, false) && s.retiredSeq == 0 && s.fold == NoFold && s.reader == Outside
  }

  predicate Sized(s: State, n: nat) {
    |s.slots| == |s.owners| == |s.ever| == |s.folded| == |s.lost| == n
  }

  predicate OwnerStep(s: State, step: Step, t: State, n: nat)
    requires Sized(s, n)
  {
    match step
    case Reject(i) =>
      && i < n && s.owners[i].Running? && !s.owners[i].writing
      && t == s.(owners := s.owners[i := Running(s.owners[i].local + 1, true)])
    case Touch(i) =>
      && i < n && s.owners[i].Running? && !s.owners[i].writing
      && t == s.(owners := s.owners[i := s.owners[i].(writing := true)])
    case Mark(i) =>
      && i < n && s.owners[i].Running? && s.owners[i].writing
      && t == s.(slots := s.slots[i := s.slots[i].(odd := true)])
    case Finish(i) =>
      && i < n && s.owners[i].Running? && s.owners[i].writing && s.slots[i].odd
      && var written := s.owners[i].local;
      && written >= s.slots[i].value
      && t == s.(slots := s.slots[i := Counter(written, false)],
                 owners := s.owners[i := Running(written, false)],
                 ever := s.ever[i := s.ever[i] + (written - s.slots[i].value)])
    case Die(i) =>
      && i < n && s.owners[i].Running?
      && t == s.(owners := s.owners[i := Died])
    case _ => false
  }

  predicate SupervisorStep(s: State, step: Step, t: State, n: nat)
    requires Sized(s, n)
  {
    match step
    case FoldRead(i) =>
      && i < n && s.fold.NoFold? && s.owners[i].Died? && !s.slots[i].odd && !s.retired.odd
      && t == s.(fold := Read(i, s.slots[i].value, s.retired.value))
    case FoldMark =>
      && s.fold.Read?
      && t == s.(retired := s.retired.(odd := true), retiredSeq := s.retiredSeq + 1,
                 fold := Marked(s.fold.i, s.fold.view, s.fold.total))
    case FoldMove =>
      && s.fold.Marked?
      && t == s.(retired := Counter(s.fold.total + s.fold.view, true), fold := Moved(s.fold.i, s.fold.view))
    case FoldClear =>
      && s.fold.Moved? && s.fold.i < n
      && t == s.(slots := s.slots[s.fold.i := Counter(0, false)],
                 folded := s.folded[s.fold.i := s.folded[s.fold.i] + s.fold.view],
                 fold := Cleared(s.fold.i))
    case FoldEnd =>
      && s.fold.Cleared? && s.fold.i < n
      && t == s.(retired := s.retired.(odd := false), retiredSeq := s.retiredSeq + 1,
                 owners := s.owners[s.fold.i := Free], fold := NoFold)
    case ReclaimTorn(i) =>
      && i < n && s.fold.NoFold? && s.owners[i].Died? && s.slots[i].odd
      && t == s.(slots := s.slots[i := Counter(0, false)], owners := s.owners[i := Free],
                 lost := s.lost[i := s.lost[i] + s.slots[i].value])
    case Spawn(i) =>
      i < n && s.owners[i].Free? && t == s.(owners := s.owners[i := Running(0, true)])
    case _ => false
  }

  predicate ReaderStep(s: State, step: Step, t: State, n: nat)
    requires Sized(s, n)
  {
    match step
    case ReadVersion =>
      s.reader.Outside? && !s.retired.odd && t == s.(reader := Adding(s.retiredSeq, [], s.ever, s.lost))
    case ReadSlot =>
      && s.reader.Adding? && |s.reader.got| < n && !s.slots[|s.reader.got|].odd
      && t == s.(reader := s.reader.(got := s.reader.got + [s.slots[|s.reader.got|].value]))
    case Retry => s.reader.Adding? && t == s.(reader := Outside)
    case Return(total) =>
      && s.reader.Adding? && |s.reader.got| == n && !s.retired.odd && s.retiredSeq == s.reader.version
      && total == Sum(s.reader.got) + s.retired.value
      && t == s.(reader := Outside)
    case _ => false
  }

  predicate Next(s: State, step: Step, t: State, n: nat) {
    Sized(s, n) && (OwnerStep(s, step, t, n) || SupervisorStep(s, step, t, n) || ReaderStep(s, step, t, n))
  }

  predicate Run(states: seq<State>, steps: seq<Step>, n: nat) {
    && |states| == |steps| + 1
    && Init(states[0], n)
    && forall k :: 0 <= k < |steps| ==> Next(states[k], steps[k], states[k + 1], n)
  }

  // ---------------------------------------------------------------- the invariant

  /** What was recorded at a slot is what it shows, what was folded from it and what was lost with it. */
  predicate SlotInv(s: State, n: nat, i: nat)
    requires Sized(s, n) && i < n
  {
    && s.slots[i].value + s.folded[i] + s.lost[i] == s.ever[i]
    && (s.owners[i].Running? ==>
          && (s.owners[i].local >= s.slots[i].value)
          && (!s.owners[i].writing ==> s.slots[i] == Counter(s.owners[i].local, false)))
    && (s.owners[i].Free? ==> s.slots[i] == Counter(0, false))
  }

  predicate FoldInv(s: State, n: nat)
    requires Sized(s, n)
  {
    && (s.retired.odd <==> s.fold.Marked? || s.fold.Moved? || s.fold.Cleared?)
    && match s.fold
       case NoFold => s.retired.value == Sum(s.folded)
       case Read(i, view, total) =>
         && i < n && s.owners[i].Died? && s.slots[i] == Counter(view, false)
         && s.retired.value == total == Sum(s.folded)
       case Marked(i, view, total) =>
         i < n && s.owners[i].Died? && s.slots[i] == Counter(view, false) && total == Sum(s.folded)
       case Moved(i, view) =>
         && i < n && s.owners[i].Died? && s.slots[i] == Counter(view, false)
         && s.retired.value == Sum(s.folded) + view
       case Cleared(i) =>
         && i < n && s.owners[i].Died? && s.slots[i] == Counter(0, false)
         && s.retired.value == Sum(s.folded)
  }

  /** As long as no fold has begun since the reader's start, nothing it has read was folded meanwhile. */
  predicate ReaderInv(s: State, n: nat)
    requires Sized(s, n)
  {
    s.reader.Adding? ==>
      && s.reader.version <= s.retiredSeq
      && (s.reader.version == s.retiredSeq ==> !s.retired.odd)
      && |s.reader.got| <= n && |s.reader.since| == |s.reader.before| == n
      && (forall i :: 0 <= i < n ==> s.reader.since[i] <= s.ever[i] && s.reader.before[i] <= s.lost[i])
      && (s.reader.version == s.retiredSeq ==> forall i :: 0 <= i < |s.reader.got| ==>
            && s.reader.got[i] + s.folded[i] + s.reader.before[i] <= s.ever[i]
            && s.reader.since[i] <= s.reader.got[i] + s.folded[i] + s.lost[i])
  }

  predicate Inv(s: State, n: nat) {
    && Sized(s, n)
    && (forall i :: 0 <= i < n ==> SlotInv(s, n, i))
    && FoldInv(s, n)
    && ReaderInv(s, n)
  }

  lemma {:induction false} SumThree(ws: seq<nat>, xs: seq<nat>, ys: seq<nat>, zs: seq<nat>)
    requires |ws| == |xs| == |ys| == |zs| && forall k :: 0 <= k < |xs| ==> ws[k] + xs[k] + ys[k] <= zs[k]
    ensures Sum(ws) + Sum(xs) + Sum(ys) <= Sum(zs)
    decreases |xs|
  {
    if xs != [] { SumThree(ws[1..], xs[1..], ys[1..], zs[1..]); }
  }

  lemma {:induction false} SumThreeAtLeast(ws: seq<nat>, xs: seq<nat>, ys: seq<nat>, zs: seq<nat>)
    requires |ws| == |xs| == |ys| == |zs| && forall k :: 0 <= k < |xs| ==> zs[k] <= ws[k] + xs[k] + ys[k]
    ensures Sum(zs) <= Sum(ws) + Sum(xs) + Sum(ys)
    decreases |xs|
  {
    if xs != [] { SumThreeAtLeast(ws[1..], xs[1..], ys[1..], zs[1..]); }
  }

  lemma InitInv(s: State, n: nat)
    requires Init(s, n)
    ensures Inv(s, n)
  {
    SumZero(s.folded);
  }

  lemma OwnerInv(s: State, step: Step, t: State, n: nat)
    requires Inv(s, n) && OwnerStep(s, step, t, n)
    ensures Inv(t, n)
  {
    assert SlotInv(s, n, step.i);
    forall i | 0 <= i < n ensures SlotInv(t, n, i) {
      assert SlotInv(s, n, i);
    }
  }

  lemma SupervisorSlots(s: State, step: Step, t: State, n: nat, i: nat)
    requires Inv(s, n) && SupervisorStep(s, step, t, n) && i < n
    ensures Sized(t, n) && SlotInv(t, n, i)
  {
    hide ReaderInv, Sum;
    assert SlotInv(s, n, i);
  }

  /** Reading, marking, moving, clearing and ending: what the retired slot holds is accounted for throughout. */
  lemma SupervisorFold(s: State, step: Step, t: State, n: nat)
    requires Inv(s, n) && SupervisorStep(s, step, t, n)
    ensures Sized(t, n) && FoldInv(t, n)
  {
    hide ReaderInv, SlotInv, Sum;
    if step.FoldClear? {
      SumUpdate(s.folded, s.fold.i, s.folded[s.fold.i] + s.fold.view);
    }
  }

  lemma SupervisorReader(s: State, step: Step, t: State, n: nat)
    requires Inv(s, n) && SupervisorStep(s, step, t, n)
    ensures Sized(t, n) && ReaderInv(t, n)
  {
    hide SlotInv, Sum;
  }

  lemma SupervisorInv(s: State, step: Step, t: State, n: nat)
    requires Inv(s, n) && SupervisorStep(s, step, t, n)
    ensures Inv(t, n)
  {
    SupervisorFold(s, step, t, n);
    SupervisorReader(s, step, t, n);
    hide SupervisorStep, FoldInv, ReaderInv, SlotInv;
    forall i: nat | i < n ensures SlotInv(t, n, i) {
      SupervisorSlots(s, step, t, n, i);
    }
  }

  lemma ReaderInvKept(s: State, step: Step, t: State, n: nat)
    requires Inv(s, n) && ReaderStep(s, step, t, n)
    ensures Inv(t, n)
  {
    if step.ReadSlot? {
      assert SlotInv(s, n, |s.reader.got|);
    }
    forall i | 0 <= i < n ensures SlotInv(t, n, i) {
      assert SlotInv(s, n, i);
    }
  }

  lemma NextInv(s: State, step: Step, t: State, n: nat)
    requires Inv(s, n) && Next(s, step, t, n)
    ensures Inv(t, n)
    ensures forall i :: 0 <= i < n ==> s.ever[i] <= t.ever[i] && s.lost[i] <= t.lost[i]
  {
    if OwnerStep(s, step, t, n) { OwnerInv(s, step, t, n); }
    else if SupervisorStep(s, step, t, n) { SupervisorInv(s, step, t, n); }
    else { ReaderInvKept(s, step, t, n); }
  }

  lemma {:induction false} RunInv(states: seq<State>, steps: seq<Step>, n: nat, k: nat)
    requires Run(states, steps, n) && k < |states|
    ensures Inv(states[k], n)
  {
    if k == 0 {
      InitInv(states[0], n);
    } else {
      RunInv(states, steps, n, k - 1);
      NextInv(states[k - 1], steps[k - 1], states[k], n);
    }
  }

  // ---------------------------------------------------------------- what an aggregate read returns

  /** Every rejection any data plane has ever recorded. */
  function TrueCount(s: State): nat {
    Sum(s.ever)
  }

  /** What torn reclaims have removed so far. */
  function Lost(s: State): nat {
    Sum(s.lost)
  }

  /**
   A transfer is never counted twice, and only torn reclaims lose anything: a read that returns gives no more
   than the true count at its end without what was lost before it began, and no less than the true count at
   its start without what was lost by its end.
   */
  lemma ReadIsBetween(states: seq<State>, steps: seq<Step>, n: nat, k: nat)
    requires Run(states, steps, n) && k < |steps| && steps[k].Return?
    ensures states[k].reader.Adding?
    ensures steps[k].total + Sum(states[k].reader.before) <= TrueCount(states[k])
    ensures Sum(states[k].reader.since) <= steps[k].total + Lost(states[k])
  {
    RunInv(states, steps, n, k);
    var s := states[k];
    assert Next(s, steps[k], states[k + 1], n);
    SumThree(s.reader.got, s.folded, s.reader.before, s.ever);
    SumThreeAtLeast(s.reader.got, s.folded, s.lost, s.reader.since);
  }

  /** One step records and loses no less, and a read either goes on or starts from this moment. */
  lemma CountsGrow(s: State, step: Step, t: State, n: nat)
    requires Inv(s, n) && Next(s, step, t, n)
    ensures TrueCount(s) <= TrueCount(t) && Lost(s) <= Lost(t)
    ensures !step.ReclaimTorn? ==> Lost(s) == Lost(t)
    ensures t.reader.Adding? ==>
      || (t.reader.since == s.ever && t.reader.before == s.lost)
      || (s.reader.Adding? && !step.Return? && t.reader.since == s.reader.since && t.reader.before == s.reader.before)
  {
    NextInv(s, step, t, n);
    SumAtMost(s.ever, t.ever, 0);
    SumAtMost(s.lost, t.lost, 0);
  }

  /** A read that is under way after step `a` began with at least the true count of step `a`. */
  lemma {:induction false} LaterReadsStartLater(states: seq<State>, steps: seq<Step>, n: nat, a: nat, b: nat)
    requires Run(states, steps, n) && a < b < |states| && steps[a].Return?
    ensures TrueCount(states[a]) <= TrueCount(states[b])
    ensures states[b].reader.Adding? ==> TrueCount(states[a]) <= Sum(states[b].reader.since)
  {
    hide Inv, Next;
    RunStep(states, steps, n, b - 1);
    CountsGrow(states[b - 1], steps[b - 1], states[b], n);
    if a + 1 < b {
      LaterReadsStartLater(states, steps, n, a, b - 1);
    }
  }

  /** Steps `c` to `b` reclaim no torn slot. */
  predicate NothingTorn(steps: seq<Step>, c: nat, b: nat)
    requires c <= b <= |steps|
  {
    forall j :: c <= j < b ==> !steps[j].ReclaimTorn?
  }

  lemma RunStep(states: seq<State>, steps: seq<Step>, n: nat, k: nat)
    requires Run(states, steps, n) && k < |steps|
    ensures Inv(states[k], n) && Next(states[k], steps[k], states[k + 1], n)
  {
    RunInv(states, steps, n, k);
  }

  /** A read that began after `c` found all that was lost before `c`. */
  lemma {:induction false} LossesStand(states: seq<State>, steps: seq<Step>, n: nat, c: nat, k: nat)
    requires Run(states, steps, n) && c <= k < |states| == |steps| + 1 && states[c].reader.Outside?
    ensures Lost(states[c]) <= Lost(states[k])
    ensures states[k].reader.Adding? ==> Lost(states[c]) <= Sum(states[k].reader.before)
    ensures NothingTorn(steps, c, k) ==> Lost(states[c]) == Lost(states[k])
  {
    hide Run, Inv, Next, Sum;
    if c < k {
      RunStep(states, steps, n, k - 1);
      CountsGrow(states[k - 1], steps[k - 1], states[k], n);
      LossesStand(states, steps, n, c, k - 1);
    }
  }

  /**
   A later read falls below an earlier one by no more than torn reclaims removed since any moment `c` before the
   earlier one began; without one since then it does not fall at all, whatever died or was lost before.
   */
  lemma ReadsNeverDecrease(states: seq<State>, steps: seq<Step>, n: nat, c: nat, a: nat, b: nat)
    requires Run(states, steps, n) && c <= a < b < |steps| && steps[a].Return? && steps[b].Return?
    requires states[c].reader.Outside?
    ensures steps[a].total <= steps[b].total + (Lost(states[b]) - Lost(states[c]))
    ensures NothingTorn(steps, c, b) ==> steps[a].total <= steps[b].total
  {
    hide Next, Sum;
    ReadIsBetween(states, steps, n, a);
    ReadIsBetween(states, steps, n, b);
    LaterReadsStartLater(states, steps, n, a, b);
    LossesStand(states, steps, n, c, a);
    LossesStand(states, steps, n, c, b);
  }
}
