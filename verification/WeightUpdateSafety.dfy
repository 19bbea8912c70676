/**
 One inductive invariant of `WeightUpdate`, and the guarantees that follow from it: broadcast
 exclusion, failing closed across every crash, and sound acknowledgements.
 */
module WeightUpdateSafety {
  import opened RouterTypes
  import opened InternalChannel
  import opened SnapshotFile
  import opened UpdateJournal
  import opened WeightUpdate

  // ---------------------------------------------------------------- the invariant

  predicate SnapshotDisables(x: Option<Snapshot>, ids: set<WorkerId>) {
    x.Some? ==> AllDisabled(x.value.workers, ids)
  }

  /** The file, every applied view and every snapshot still being read keep `ids` disabled. */
  predicate EverywhereDisabled(s: State, ids: set<WorkerId>) {
    && SnapshotDisables(s.file, ids)
    && forall i :: 0 <= i < |s.dps| ==> SnapshotDisables(s.dps[i].view, ids) && SnapshotDisables(s.dps[i].pending, ids)
  }

  predicate AfterDisables(x: Option<Snapshot>, epoch: nat, from: nat, ids: set<WorkerId>) {
    x.Some? && x.value.epoch == epoch && x.value.seqno >= from ==> AllDisabled(x.value.workers, ids)
  }

  predicate RecentDisabled(s: State, epoch: nat, from: nat, ids: set<WorkerId>) {
    && AfterDisables(s.file, epoch, from, ids)
    && forall i :: 0 <= i < |s.dps| ==>
         AfterDisables(s.dps[i].view, epoch, from, ids) && AfterDisables(s.dps[i].pending, epoch, from, ids)
  }

  predicate Reached(epoch: nat, seqno: nat, x: Option<Snapshot>) {
    x.Some? ==> AtMost(epoch, seqno, x.value.epoch, x.value.seqno)
  }

  predicate Epochs(s: State) {
    && 1 <= s.nextEpoch
    && (s.file.Some? ==> 1 <= s.file.value.epoch < s.nextEpoch)
    && (s.cp.Up? ==>
          && 1 <= s.cp.epoch < s.nextEpoch
          && (s.file.Some? ==> AtMost(s.file.value.epoch, s.file.value.seqno, s.cp.epoch, s.cp.seqno))
          && (!s.cp.txn.Starting? ==> s.file.Some? && s.file.value.epoch == s.cp.epoch))
  }

  /** Within one process the applied view never runs ahead of what it reads, nor that ahead of the file. */
  predicate DpOrdered(dp: DataPlane, file: Option<Snapshot>) {
    && (!dp.alive ==> dp.view.None? && dp.pending.None?)
    && (dp.view.Some? || dp.pending.Some? ==> file.Some?)
    && (dp.view.Some? ==>
          && 1 <= dp.view.value.epoch
          && Reached(dp.view.value.epoch, dp.view.value.seqno, dp.pending)
          && Reached(dp.view.value.epoch, dp.view.value.seqno, file))
    && (dp.pending.Some? ==> 1 <= dp.pending.value.epoch && Reached(dp.pending.value.epoch, dp.pending.value.seqno, file))
  }

  /** An acknowledgement of (`epoch`, `seqno`) by generation `generation` of data plane `i` is true. */
  predicate ClaimSound(s: State, i: nat, generation: nat, epoch: nat, seqno: nat) {
    && i < |s.dps| && generation <= s.dps[i].generation
    && (epoch == 0 ==> seqno == 0)
    && (epoch != 0 ==> s.file.Some?)
    && Reached(epoch, seqno, s.file)
    && Reached(epoch, seqno, s.dps[i].view)
    && Reached(epoch, seqno, s.dps[i].pending)
    && (s.dps[i].alive && generation == s.dps[i].generation && epoch != 0 ==> s.dps[i].view.Some?)
  }

  predicate MessageSound(s: State, m: Message) {
    if m.Hello? then ClaimSound(s, m.index, m.generation, 0, 0)
    else ClaimSound(s, m.index, m.generation, m.epoch, m.seqno)
  }

  predicate Acks(s: State) {
    && (forall m :: m in s.net ==> MessageSound(s, m))
    && (s.cp.Up? ==> forall i :: i in s.cp.records ==>
          ClaimSound(s, i, s.cp.records[i].generation, s.cp.records[i].epoch, s.cp.records[i].seqno))
  }

  /** What each phase of the transaction has established about its targets. */
  predicate Phase(s: State) {
    s.cp.Up? ==>
      match s.cp.txn
      case Starting => true
      case Idle => true
      case Journaled(targets, _) => s.uncertain == {} && s.journal.Guards(targets)
      case Disabled(targets, _) =>
        s.uncertain == {} && s.journal.Guards(targets) && AllDisabled(s.cp.registry, targets)
      case Waiting(targets, _, ackSeq) =>
        && s.uncertain == {} && s.journal.Guards(targets) && AllDisabled(s.cp.registry, targets)
        && RecentDisabled(s, s.cp.epoch, ackSeq, targets)
        && s.file.Some? && AtMost(s.cp.epoch, ackSeq, s.file.value.epoch, s.file.value.seqno)
      case Sending(targets, _) =>
        && s.uncertain == targets && s.journal.Guards(targets) && AllDisabled(s.cp.registry, targets)
        && EverywhereDisabled(s, targets)
      case Settled(targets, safe, sent) =>
        && s.uncertain == (if sent && !safe then targets else {})
        && s.journal.Guards(targets)
        && (sent ==> EverywhereDisabled(s, targets))
        && (!safe ==> AllDisabled(s.cp.registry, targets))
      case Recorded(targets, safe, sent) =>
        && s.uncertain == (if sent && !safe then targets else {})
        && (!safe ==> s.journal.Guards(targets) && AllDisabled(s.cp.registry, targets))
        && (sent ==> EverywhereDisabled(s, targets))
  }

  predicate FailClosed(s: State) {
    && s.journal.Guards(s.uncertain)
    && EverywhereDisabled(s, s.uncertain)
    && (s.cp.Up? ==> AllDisabled(s.cp.registry, s.uncertain))
  }

  predicate Inv(s: State) {
    && Epochs(s)
    && (forall i :: 0 <= i < |s.dps| ==> DpOrdered(s.dps[i], s.file))
    && Acks(s)
    && Phase(s)
    && FailClosed(s)
  }

  // ---------------------------------------------------------------- it is inductive

  lemma InitInv(s: State)
    requires Init(s)
    ensures Inv(s)
  {
  }

  lemma DeliverKeepsAcks(s: State, m: Message)
    requires Acks(s) && s.cp.Up? && m in s.net
    ensures Acks(s.(cp := s.cp.(records := OnMessage(s.cp.records, m).0)))
  {
  }

  /** Acknowledgements rest on the records, the messages, the file and the data planes alone. */
  lemma SameAcks(s: State, t: State)
    requires Acks(s) && t.net == s.net && t.file == s.file && t.dps == s.dps
    requires t.cp.Up? ==> s.cp.Up? && t.cp.records == s.cp.records
    ensures Acks(t)
  {
  }

  lemma PublishInv(s: State, ok: bool, txn: Txn)
    requires Inv(s) && s.cp.Up?
    requires ok || !s.cp.txn.Starting?
    requires txn == s.cp.txn || txn == Idle
          || (s.cp.txn.Disabled? && txn == Waiting(s.cp.txn.targets, s.cp.txn.previous, s.cp.seqno + 1) && ok)
    requires s.cp.txn.Settled? || s.cp.txn.Recorded? ==> txn == Idle
    ensures Inv(Publish(s, ok, txn))
  {
  }

  lemma CpStepInv(s: State, step: Step, t: State)
    requires Inv(s) && CpStep(s, step, t)
    ensures Inv(t)
  {
    match step
    case CpCrash =>
      assert forall m :: m in t.net ==> MessageSound(s, m);
    case CpBoot =>
      assert forall m :: m in t.net ==> MessageSound(s, m);
    case BootPublish(ok) =>
      if ok { PublishInv(s, true, Idle); }
      assert forall m :: m in t.net ==> MessageSound(s, m);
    case Refresh(ok) => PublishInv(s, ok, s.cp.txn);
    case Probe(id, health) =>
      assert forall m :: m in t.net ==> MessageSound(s, m);
    case Deliver(m) => DeliverKeepsAcks(s, m);
  }

  /** The barrier passed, so nothing any data plane holds, or is about to apply, enables a target. */
  lemma AckedMeansDisabled(s: State, live: set<nat>)
    requires Inv(s) && s.cp.Up? && s.cp.txn.Waiting?
    requires Acknowledged(Poll(s.cp.records, live, false), |s.dps|, s.cp.epoch, s.cp.txn.ackSeq)
    ensures EverywhereDisabled(s, s.cp.txn.targets)
  {
    if |s.dps| > 0 {
      forall i: nat | i < |s.dps|
        ensures SnapshotDisables(s.dps[i].view, s.cp.txn.targets) && SnapshotDisables(s.dps[i].pending, s.cp.txn.targets)
      {
        var r := s.cp.records[i];
        assert ClaimSound(s, i, r.generation, r.epoch, r.seqno);
        assert DpOrdered(s.dps[i], s.file);
      }
    }
  }

  lemma TxnStepInv(s: State, step: Step, t: State)
    requires Inv(s) && TxnStep(s, step, t)
    ensures Inv(t)
  {
    match step
    case PublishDisabled(ok) => PublishInv(s, ok, t.cp.txn);
    case PublishOutcome(ok) => PublishInv(s, ok, Idle);
    case Record(ok) =>
      SameAcks(s, t);
    case AckPassed(live) =>
      AckedMeansDisabled(s, live);
      SameAcks(s, t);
    case _ =>
      hide Acks;
      RegistryStepInv(s, step, t);
  }

  /** The phases that only set flags or begin a transaction. */
  lemma RegistryStepInv(s: State, step: Step, t: State)
    requires Inv(s) && TxnStep(s, step, t)
    requires step.Begin? || step.DisableTargets? || step.AckTimedOut? || step.Cancelled? || step.AllSucceeded? || step.SomeFailed?
    ensures Inv(t)
  {
    SameAcks(s, t);
    hide Acks;
  }

  lemma OperatorStepInv(s: State, step: Step, t: State)
    requires Inv(s) && OperatorStep(s, step, t)
    ensures Inv(t)
  {
    SameAcks(s, t);
    hide Acks;
  }

  /** A data plane's snapshots only ever come from its own slots or from the file. */
  predicate Holds(s: State, i: nat, x: Option<Snapshot>)
    requires i < |s.dps|
  {
    x.None? || x == s.file || x == s.dps[i].view || x == s.dps[i].pending
  }

  lemma DpChangeInv(s: State, i: nat, dp: DataPlane)
    requires Inv(s) && i < |s.dps|
    requires DpOrdered(dp, s.file) && Holds(s, i, dp.view) && Holds(s, i, dp.pending)
    requires Acks(s.(dps := s.dps[i := dp]))
    ensures Inv(s.(dps := s.dps[i := dp]))
  {
  }

  /** A read takes the newest file and an apply takes what was read, so no acknowledgement is overtaken. */
  lemma DpChangeAcks(s: State, i: nat, dp: DataPlane)
    requires Inv(s) && i < |s.dps|
    requires s.dps[i].generation <= dp.generation
    requires dp.view == s.dps[i].view || dp.view.None? || dp.view == s.dps[i].pending
    requires dp.pending == s.dps[i].pending || dp.pending.None? || dp.pending == s.file
    requires dp.alive && dp.generation == s.dps[i].generation ==> s.dps[i].alive && (s.dps[i].view.Some? ==> dp.view.Some?)
    ensures Acks(s.(dps := s.dps[i := dp]))
  {
    var t := s.(dps := s.dps[i := dp]);
    forall j, g, e, q | ClaimSound(s, j, g, e, q) ensures ClaimSound(t, j, g, e, q) {
    }
    forall m | m in t.net ensures MessageSound(t, m) {
      assert MessageSound(s, m);
    }
  }

  lemma DpSendAcks(s: State, m: Message)
    requires Inv(s) && MessageSound(s, m)
    ensures Inv(s.(net := s.net + {m}))
  {
    var t := s.(net := s.net + {m});
    forall n | n in t.net ensures MessageSound(t, n) {
      assert MessageSound(s, n);
    }
  }

  lemma DpStepInv(s: State, step: Step, t: State)
    requires Inv(s) && DpStep(s, step, t)
    ensures Inv(t)
  {
    match step
    case DpHello(i) => DpSendAcks(s, Hello(i, s.dps[i].generation, s.dps[i].pid));
    case DpBeat(i, serving) =>
      assert DpOrdered(s.dps[i], s.file);
      DpSendAcks(s, Beat(i, s.dps[i].generation, s.dps[i].pid, s.dps[i].Epoch(), s.dps[i].Seqno(), serving));
    case DpRead(i) =>
      assert DpOrdered(s.dps[i], s.file);
      DpChangeAcks(s, i, t.dps[i]);
      DpChangeInv(s, i, t.dps[i]);
    case DpApply(i) =>
      assert DpOrdered(s.dps[i], s.file);
      DpChangeAcks(s, i, t.dps[i]);
      DpChangeInv(s, i, t.dps[i]);
    case DpCrash(i) =>
      DpChangeAcks(s, i, t.dps[i]);
      DpChangeInv(s, i, t.dps[i]);
    case DpSpawn(i, pid) =>
      DpChangeAcks(s, i, t.dps[i]);
      DpChangeInv(s, i, t.dps[i]);
  }

  lemma EnvStepInv(s: State, step: Step, t: State)
    requires Inv(s) && EnvStep(s, step, t)
    ensures Inv(t)
  {
  }

  lemma NextInv(s: State, step: Step, t: State)
    requires Inv(s) && Next(s, step, t)
    ensures Inv(t)
  {
    if CpStep(s, step, t) { CpStepInv(s, step, t); }
    else if TxnStep(s, step, t) { TxnStepInv(s, step, t); }
    else if OperatorStep(s, step, t) { OperatorStepInv(s, step, t); }
    else if DpStep(s, step, t) { DpStepInv(s, step, t); }
    else { EnvStepInv(s, step, t); }
  }

  lemma {:induction false} RunInv(states: seq<State>, steps: seq<Step>, k: nat)
    requires Run(states, steps) && k < |states|
    ensures Inv(states[k])
  {
    if k == 0 {
      InitInv(states[0]);
    } else {
      hide Inv, Next, Init;
      RunInv(states, steps, k - 1);
      NextInv(states[k - 1], steps[k - 1], states[k]);
    }
  }

  // ---------------------------------------------------------------- broadcast exclusion

  /** From the moment the barrier passed until the outcome is published. */
  predicate InBroadcastWindow(s: State) {
    s.cp.Up? && (s.cp.txn.Sending? || ((s.cp.txn.Settled? || s.cp.txn.Recorded?) && s.cp.txn.sent))
  }

  /** No data plane newly selects an update target while the broadcast may be changing its weights. */
  lemma BroadcastExclusion(states: seq<State>, steps: seq<Step>, k: nat, i: nat, id: WorkerId)
    requires Run(states, steps) && k < |states|
    requires InBroadcastWindow(states[k]) && id in states[k].cp.txn.targets
    requires i < |states[k].dps|
    ensures !states[k].dps[i].CanSelect(id)
  {
    RunInv(states, steps, k);
    assert SnapshotDisables(states[k].dps[i].view, states[k].cp.txn.targets);
  }

  // ---------------------------------------------------------------- failing closed

  /** Nobody routes to `id`, no snapshot would let anybody, and the journal keeps it so. */
  predicate ShutOut(s: State, id: WorkerId) {
    && (s.cp.Up? && id in s.cp.registry ==> !s.cp.registry[id].Routable())
    && (s.file.Some? && id in s.file.value.workers ==> !s.file.value.workers[id].Routable())
    && (forall i :: 0 <= i < |s.dps| ==> !s.dps[i].CanSelect(id))
    && s.journal.Guards({id})
  }

  /** The only ways out: the operator vouches for the worker, or this very broadcast succeeded everywhere. */
  predicate Lifts(s: State, step: Step, id: WorkerId) {
    || step.Resolve?
    || (step.Enable? && step.id == id && !s.journal.visible.Unreadable?)
    || step.AllSucceeded?
  }

  lemma UncertainNext(states: seq<State>, steps: seq<Step>, k: nat, id: WorkerId)
    requires Run(states, steps) && k < |steps|
    requires id in states[k].uncertain && !Lifts(states[k], steps[k], id)
    ensures id in states[k + 1].uncertain
  {
  }

  lemma SendingMarks(s: State, step: Step, t: State, id: WorkerId)
    requires Next(s, step, t) && step.AckPassed? && s.cp.Up? && id in s.cp.txn.Targets()
    ensures id in t.uncertain
  {
  }

  lemma {:induction false} UncertainThroughout(
      states: seq<State>, steps: seq<Step>, a: nat, b: nat, id: WorkerId)
    requires Run(states, steps) && a < b < |states|
    requires steps[a].AckPassed? && states[a].cp.Up? && id in states[a].cp.txn.Targets()
    requires forall k :: a < k < b ==> !Lifts(states[k], steps[k], id)
    ensures id in states[b].uncertain
  {
    if b == a + 1 {
      SendingMarks(states[a], steps[a], states[b], id);
    } else {
      UncertainThroughout(states, steps, a, b - 1, id);
      UncertainNext(states, steps, b - 1, id);
    }
  }

  /**
   Once the broadcast to `id` may have started, `id` stays shut out in every later state of the
   run: across control-plane crashes at any step, host crashes, journal damage, deletion and
   re-registration, until an operator vouches for it or the broadcast is known to have succeeded.
   */
  lemma FailClosedAcrossCrashes(
      states: seq<State>, steps: seq<Step>, a: nat, b: nat, id: WorkerId)
    requires Run(states, steps) && a < b < |states|
    requires steps[a].AckPassed? && states[a].cp.Up? && id in states[a].cp.txn.Targets()
    requires forall k :: a < k < b ==> !Lifts(states[k], steps[k], id)
    ensures ShutOut(states[b], id)
  {
    UncertainThroughout(states, steps, a, b, id);
    RunInv(states, steps, b);
    forall i | 0 <= i < |states[b].dps| ensures !states[b].dps[i].CanSelect(id) {
      assert SnapshotDisables(states[b].dps[i].view, states[b].uncertain);
    }
  }

  /** And no further update can begin: the pending journal entry refuses it. */
  lemma UncertainRefusesUpdates(states: seq<State>, steps: seq<Step>, k: nat)
    requires Run(states, steps) && k < |steps|
    requires states[k].uncertain != {}
    ensures !steps[k].Begin?
  {
    RunInv(states, steps, k);
    var id :| id in states[k].uncertain;
    assert states[k].journal.visible.Blocks(id);
    assert states[k].journal.visible.HasPending();
    assert Next(states[k], steps[k], states[k + 1]);
  }

  /** As `found`, except that every target is disabled. */
  predicate TargetsShut(reg: Registry, found: Registry, targets: set<WorkerId>) {
    reg.Keys == found.Keys && forall id :: id in found ==> reg[id].disabled == (id in targets || found[id].disabled)
  }

  /** What a transaction that began on registry `found` remembers of it, phase by phase. */
  predicate Remembers(s: State, found: Registry) {
    && s.cp.Up?
    && match s.cp.txn
       case Journaled(targets, previous) =>
         targets <= found.Keys && previous == PreviousDisabled(found, targets) && SameFlags(s.cp.registry, found)
       case Disabled(targets, previous) =>
         targets <= found.Keys && previous == PreviousDisabled(found, targets) && TargetsShut(s.cp.registry, found, targets)
       case Waiting(targets, previous, _) =>
         targets <= found.Keys && previous == PreviousDisabled(found, targets) && TargetsShut(s.cp.registry, found, targets)
       case Sending(targets, previous) =>
         targets <= found.Keys && previous == PreviousDisabled(found, targets) && TargetsShut(s.cp.registry, found, targets)
       case Settled(targets, safe, _) =>
         targets <= found.Keys && if safe then SameFlags(s.cp.registry, found) else TargetsShut(s.cp.registry, found, targets)
       case Recorded(targets, safe, _) =>
         targets <= found.Keys && if safe then SameFlags(s.cp.registry, found) else TargetsShut(s.cp.registry, found, targets)
       case _ => false
  }

  /** One transaction, from the step that began it to state `b`: neither a crash nor an end in between. */
  predicate InTransaction(states: seq<State>, steps: seq<Step>, a: nat, b: nat) {
    && a < b < |states| == |steps| + 1 && steps[a] == Begin(true)
    && forall k :: a < k <= b ==> states[k].cp.Up? && !states[k].cp.txn.Idle? && !states[k].cp.txn.Starting?
  }

  lemma CpRemembers(s: State, step: Step, t: State, found: Registry)
    requires CpStep(s, step, t) && Remembers(s, found) && t.cp.Up? && !t.cp.txn.Starting?
    ensures Remembers(t, found)
  {
    hide OnMessage, Boot, PreviousDisabled;
  }

  /** Disabling the targets, with probes before it or not. */
  lemma DisablingShuts(reg: Registry, found: Registry, targets: set<WorkerId>)
    ensures SameFlags(reg, found) || TargetsShut(reg, found, targets) ==> TargetsShut(DisableAll(reg, targets), found, targets)
  {
  }

  lemma RestoringRestores(reg: Registry, found: Registry, targets: set<WorkerId>)
    requires TargetsShut(reg, found, targets)
    ensures SameFlags(RestoreFlags(reg, PreviousDisabled(found, targets)), found)
  {
  }

  lemma TxnRemembers(s: State, step: Step, t: State, found: Registry)
    requires TxnStep(s, step, t) && Remembers(s, found) && !t.cp.txn.Idle?
    ensures t.cp.Up? && Remembers(t, found)
  {
    hide LiveIds, Acknowledged, JournalWrite, DisableAll, RestoreFlags, PreviousDisabled, SameFlags, TargetsShut;
    DisablingShuts(s.cp.registry, found, s.cp.txn.Targets());
    if step.AckTimedOut? || step.AllSucceeded? {
      RestoringRestores(s.cp.registry, found, s.cp.txn.targets);
    }
  }

  /** Operators wait for the lock. */
  lemma NoOperator(s: State, step: Step, t: State, found: Registry)
    requires Remembers(s, found)
    ensures !OperatorStep(s, step, t)
  {
  }

  /** Data planes and the environment do not touch a live control plane. */
  lemma OthersRemember(s: State, step: Step, t: State, found: Registry)
    requires DpStep(s, step, t) || EnvStep(s, step, t)
    requires Remembers(s, found) && t.cp.Up?
    ensures Remembers(t, found)
  {
    hide WeightUpdate.Apply, PreviousDisabled;
    assert t.cp == s.cp;
  }

  lemma RemembersNext(s: State, step: Step, t: State, found: Registry)
    requires Next(s, step, t) && Remembers(s, found)
    requires t.cp.Up? && !t.cp.txn.Idle? && !t.cp.txn.Starting?
    ensures Remembers(t, found)
  {
    hide CpStep, TxnStep, OperatorStep, DpStep, EnvStep, Remembers;
    NoOperator(s, step, t, found);
    if CpStep(s, step, t) {
      CpRemembers(s, step, t, found);
    } else if TxnStep(s, step, t) {
      TxnRemembers(s, step, t, found);
    } else {
      OthersRemember(s, step, t, found);
    }
  }

  lemma BeginRemembers(s: State, step: Step, t: State)
    requires Next(s, step, t) && step == Begin(true)
    ensures s.cp.Up? && Remembers(t, s.cp.registry)
  {
    assert TxnStep(s, step, t);
  }

  lemma {:induction false} TransactionRemembers(states: seq<State>, steps: seq<Step>, a: nat, b: nat)
    requires Run(states, steps) && InTransaction(states, steps, a, b)
    ensures states[a].cp.Up? && Remembers(states[b], states[a].cp.registry)
  {
    hide Next, Remembers, Init;
    assert Next(states[b - 1], steps[b - 1], states[b]);
    if b == a + 1 {
      BeginRemembers(states[a], steps[a], states[b]);
    } else {
      TransactionRemembers(states, steps, a, b - 1);
      RemembersNext(states[b - 1], steps[b - 1], states[b], states[a].cp.registry);
    }
  }

  /** Until the transaction ends, the registry is the one found or that with its targets shut, as was settled. */
  lemma OutcomeStands(states: seq<State>, steps: seq<Step>, a: nat, b: nat)
    requires Run(states, steps) && InTransaction(states, steps, a, b)
    requires states[b].cp.txn.Settled? || states[b].cp.txn.Recorded?
    ensures states[a].cp.Up?
    ensures states[b].cp.txn.safe ==> SameFlags(states[b].cp.registry, states[a].cp.registry)
    ensures !states[b].cp.txn.safe ==>
      && TargetsShut(states[b].cp.registry, states[a].cp.registry, states[b].cp.txn.targets)
      && states[b].journal.Guards(states[b].cp.txn.targets)
  {
    TransactionRemembers(states, steps, a, b);
    RunInv(states, steps, b);
  }

  /**
   Which update outcome reopens the targets, with probes, refreshes and messages interleaved at every
   await: when everything succeeded, or nothing was sent, every worker has the flag it had when the
   update began; in every other outcome all targets end disabled and journaled, and nobody else changed.
   */
  lemma OutcomeRestoresOrShuts(states: seq<State>, steps: seq<Step>, a: nat, b: nat)
    requires Run(states, steps) && InTransaction(states, steps, a, b + 1)
    requires steps[b].AckTimedOut? || steps[b].AllSucceeded? || steps[b].Cancelled? || steps[b].SomeFailed?
    ensures states[a].cp.Up? && states[b].cp.Up?
    ensures steps[b].AckTimedOut? || steps[b].AllSucceeded? ==>
      SameFlags(states[b + 1].cp.registry, states[a].cp.registry)
    ensures steps[b].Cancelled? || steps[b].SomeFailed? ==>
      && TargetsShut(states[b + 1].cp.registry, states[a].cp.registry, states[b].cp.txn.Targets())
      && states[b + 1].journal.Guards(states[b].cp.txn.Targets())
  {
    assert TxnStep(states[b], steps[b], states[b + 1]) by {
      assert Next(states[b], steps[b], states[b + 1]);
    }
    hide Run, Remembers, SameFlags, TargetsShut, Inv;
    OutcomeStands(states, steps, a, b + 1);
  }

  /** The remaining way an update ends, a publish that fails before the barrier: its targets stay shut and journaled. */
  lemma FailedPublishShuts(states: seq<State>, steps: seq<Step>, a: nat, b: nat)
    requires Run(states, steps) && InTransaction(states, steps, a, b)
    requires b < |steps| && steps[b] == PublishDisabled(false)
    ensures states[a].cp.Up? && states[b + 1].cp.Up? && states[b + 1].cp.txn.Idle?
    ensures states[b].cp.txn.Targets() <= states[a].cp.registry.Keys
    ensures TargetsShut(states[b + 1].cp.registry, states[a].cp.registry, states[b].cp.txn.Targets())
    ensures states[b + 1].journal.Guards(states[b].cp.txn.Targets())
  {
    TransactionRemembers(states, steps, a, b);
    RunInv(states, steps, b);
    assert TxnStep(states[b], steps[b], states[b + 1]) by {
      assert Next(states[b], steps[b], states[b + 1]);
    }
  }

  // ---------------------------------------------------------------- acknowledgements

  /**
   A record that speaks of the running epoch never claims more than that process has applied, and
   no successor of the process can be found behind it.
   */
  lemma AcksAreSound(states: seq<State>, steps: seq<Step>, k: nat, i: nat)
    requires Run(states, steps) && k < |states|
    requires states[k].cp.Up? && i in states[k].cp.records
    requires states[k].cp.records[i].epoch == states[k].cp.epoch
    ensures var s := states[k]; var r := s.cp.records[i];
      && i < |s.dps|
      && r.generation <= s.dps[i].generation
      && (s.dps[i].alive && r.generation == s.dps[i].generation ==>
            s.dps[i].Epoch() == r.epoch && r.seqno <= s.dps[i].Seqno())
      && (s.dps[i].view.Some? ==> s.dps[i].Epoch() == r.epoch && r.seqno <= s.dps[i].Seqno())
  {
    RunInv(states, steps, k);
    var s := states[k];
    var r := s.cp.records[i];
    assert ClaimSound(s, i, r.generation, r.epoch, r.seqno);
    assert DpOrdered(s.dps[i], s.file);
  }

  /** A control plane that stays up learns only by message. */
  predicate LearnsByMessage(s: State, step: Step, t: State) {
    s.cp.Up? && t.cp.Up? ==>
      && t.cp.epoch == s.cp.epoch
      && t.cp.records == if step.Deliver? then OnMessage(s.cp.records, step.m).0 else s.cp.records
  }

  lemma CpLearns(s: State, step: Step, t: State)
    requires CpStep(s, step, t)
    ensures LearnsByMessage(s, step, t)
  {
    hide OnMessage, Boot;
  }

  lemma TxnLearns(s: State, step: Step, t: State)
    requires TxnStep(s, step, t)
    ensures LearnsByMessage(s, step, t)
  {
    hide OnMessage, JournalWrite, LiveIds, PreviousDisabled, DisableAll, RestoreFlags, Acknowledged;
  }

  lemma OthersLearn(s: State, step: Step, t: State)
    requires OperatorStep(s, step, t) || DpStep(s, step, t) || EnvStep(s, step, t)
    ensures LearnsByMessage(s, step, t)
  {
    hide OnMessage, JournalWrite, WeightUpdate.Apply;
  }

  lemma RecordsByMessage(s: State, step: Step, t: State)
    requires Next(s, step, t)
    ensures LearnsByMessage(s, step, t)
  {
    hide CpStep, TxnStep, OperatorStep, DpStep, EnvStep, LearnsByMessage;
    if CpStep(s, step, t) {
      CpLearns(s, step, t);
    } else if TxnStep(s, step, t) {
      TxnLearns(s, step, t);
    } else {
      OthersLearn(s, step, t);
    }
  }

  /** The table says of data plane `i` that it has applied (`epoch`, `seqno`) or a later snapshot of the epoch. */
  predicate Acked(records: Records, i: nat, generation: nat, epoch: nat, seqno: nat) {
    i in records && records[i].generation == generation && records[i].epoch == epoch && seqno <= records[i].seqno
  }

  /** From `a` to `b` the control plane stays up and hears of `i` nothing newer and nothing of another epoch. */
  predicate Undisturbed(states: seq<State>, steps: seq<Step>, i: nat, generation: nat, epoch: nat, a: nat, b: nat) {
    && a <= b < |states| == |steps| + 1
    && (forall k :: a <= k <= b ==> states[k].cp.Up?)
    && forall k :: a <= k < b && steps[k].Deliver? && steps[k].m.index == i ==>
         steps[k].m.generation <= generation && (steps[k].m.Beat? ==> steps[k].m.epoch == epoch)
  }

  lemma AckKept(records: Records, m: Message, i: nat, generation: nat, epoch: nat, seqno: nat)
    requires Acked(records, i, generation, epoch, seqno)
    requires m.index == i ==> m.generation <= generation && (m.Beat? ==> m.epoch == epoch)
    ensures Acked(OnMessage(records, m).0, i, generation, epoch, seqno)
  {
  }

  lemma {:induction false} AckStands(
      states: seq<State>, steps: seq<Step>, i: nat, generation: nat, epoch: nat, seqno: nat, a: nat, b: nat)
    requires Run(states, steps) && Undisturbed(states, steps, i, generation, epoch, a, b)
    requires Acked(states[a].cp.records, i, generation, epoch, seqno)
    ensures states[b].cp.epoch == states[a].cp.epoch
    ensures Acked(states[b].cp.records, i, generation, epoch, seqno)
  {
    hide Next, Acked, OnMessage, Init;
    if a < b {
      AckStands(states, steps, i, generation, epoch, seqno, a, b - 1);
      RecordsByMessage(states[b - 1], steps[b - 1], states[b]);
      if steps[b - 1].Deliver? {
        AckKept(states[b - 1].cp.records, steps[b - 1].m, i, generation, epoch, seqno);
      }
    }
  }

  /** Data plane `i` beat at step `sent`, having applied the snapshot; the beat was delivered at step `got`. */
  predicate AckArrives(states: seq<State>, steps: seq<Step>, i: nat, sent: nat, got: nat, b: nat) {
    && sent < got < b < |states| == |steps| + 1
    && states[b].cp.Up? && states[b].cp.txn.Waiting?
    && steps[sent].DpBeat? && steps[sent].i == i < |states[sent].dps|
    && var dp := states[sent].dps[i];
       var beat := Beat(i, dp.generation, dp.pid, dp.Epoch(), dp.Seqno(), steps[sent].serving);
       && dp.Epoch() == states[b].cp.epoch && states[b].cp.txn.ackSeq <= dp.Seqno()
       && steps[got] == Deliver(beat) && states[got].cp.Up? && FromRegistered(states[got].cp.records, beat)
       && Undisturbed(states, steps, i, dp.generation, dp.Epoch(), got + 1, b)
  }

  /** The table holds data plane `i`'s acknowledgement of the snapshot the barrier waits for. */
  predicate AckStored(s: State, i: nat)
    requires s.cp.Up? && s.cp.txn.Waiting?
  {
    i in s.cp.records && s.cp.records[i].epoch == s.cp.epoch && s.cp.txn.ackSeq <= s.cp.records[i].seqno
  }

  lemma OneAckArrives(states: seq<State>, steps: seq<Step>, i: nat, sent: nat, got: nat, b: nat)
    requires Run(states, steps) && AckArrives(states, steps, i, sent, got, b)
    ensures AckStored(states[b], i)
  {
    hide Next, Init, OnMessage;
    var dp := states[sent].dps[i];
    assert Next(states[got], steps[got], states[got + 1]);
    RecordsByMessage(states[got], steps[got], states[got + 1]);
    var (after, reply) := OnBeat(states[got].cp.records, steps[got].m);
    assert OnMessage(states[got].cp.records, steps[got].m) == (after, reply) by { BeatsAreMessages(states[got].cp.records, steps[got].m); }
    BeatIsTaken(states[got].cp.records, steps[got].m);
    AckStands(states, steps, i, dp.generation, dp.Epoch(), dp.Seqno(), got + 1, b);
  }

  lemma BeatsAreMessages(records: Records, m: Message)
    requires m.Beat?
    ensures OnMessage(records, m) == OnBeat(records, m)
  {
  }

  /**
   The barrier is not only sound: when every data plane has applied the disabled snapshot, and beat, and its
   beat was delivered, the next poll that finds them all live lets the update go on.
   */
  lemma DeliveredAcksPass(
      states: seq<State>, steps: seq<Step>, sent: seq<nat>, got: seq<nat>, b: nat, live: set<nat>)
    requires Run(states, steps) && b < |states| && states[b].cp.Up? && states[b].cp.txn.Waiting?
    requires |sent| == |got| == |states[b].dps|
    requires forall i :: 0 <= i < |sent| ==> i in live && AckArrives(states, steps, i, sent[i], got[i], b)
    ensures Acknowledged(InternalChannel.Poll(states[b].cp.records, live, false), |states[b].dps|, states[b].cp.epoch, states[b].cp.txn.ackSeq)
    ensures exists t :: Next(states[b], AckPassed(live), t) && InBroadcastWindow(t)
  {
    hide Run, Inv, AckArrives, AckStored;
    var s := states[b];
    forall i: nat | i < |s.dps| ensures AckStored(s, i) {
      OneAckArrives(states, steps, i, sent[i], got[i], b);
    }
    RunInv(states, steps, b);
    StoredAcksPass(s, live);
  }

  lemma StoredAcksPass(s: State, live: set<nat>)
    requires Inv(s) && s.cp.Up? && s.cp.txn.Waiting?
    requires forall i: nat :: i < |s.dps| ==> i in live && AckStored(s, i)
    ensures Acknowledged(InternalChannel.Poll(s.cp.records, live, false), |s.dps|, s.cp.epoch, s.cp.txn.ackSeq)
    ensures exists t :: Next(s, AckPassed(live), t) && InBroadcastWindow(t)
  {
    hide Phase, FailClosed, DpOrdered, Epochs;
    forall i | i in s.cp.records ensures AckStored(s, i) {
      assert ClaimSound(s, i, s.cp.records[i].generation, s.cp.records[i].epoch, s.cp.records[i].seqno);
    }
    var t := WithTxn(s, Sending(s.cp.txn.targets, s.cp.txn.previous)).(uncertain := s.uncertain + s.cp.txn.targets);
    assert TxnStep(s, AckPassed(live), t);
    assert Next(s, AckPassed(live), t) && InBroadcastWindow(t);
  }

  /** As long as one control plane runs, no step lowers the generation it recorded for a data plane. */
  lemma RecordedGenerationsGrow(states: seq<State>, steps: seq<Step>, k: nat, i: nat)
    requires Run(states, steps) && k < |steps|
    requires states[k].cp.Up? && states[k + 1].cp.Up? && i in states[k].cp.records
    ensures i in states[k + 1].cp.records
    ensures states[k].cp.records[i].generation <= states[k + 1].cp.records[i].generation
  {
    hide Next, Init;
    RecordsByMessage(states[k], steps[k], states[k + 1]);
    if steps[k].Deliver? {
      MessageFenced(states[k].cp.records, steps[k].m, i);
    }
  }

  /** The published file, and what one data-plane process has applied, never go back in publication order. */
  lemma SnapshotsNeverGoBack(states: seq<State>, steps: seq<Step>, k: nat, i: nat)
    requires Run(states, steps) && k < |steps| && i < |states[k].dps|
    requires !steps[k].HostCrash?
    ensures states[k].file.Some? ==>
      Reached(states[k].file.value.epoch, states[k].file.value.seqno, states[k + 1].file)
    ensures |states[k + 1].dps| == |states[k].dps|
    ensures states[k].dps[i].view.Some? && !steps[k].DpCrash? ==>
      Reached(states[k].dps[i].Epoch(), states[k].dps[i].Seqno(), states[k + 1].dps[i].view)
  {
    RunInv(states, steps, k);
    assert Next(states[k], steps[k], states[k + 1]);
    hide Run, Inv, Next;
    FileForward(states[k], steps[k], states[k + 1]);
    ViewForward(states[k], steps[k], states[k + 1], i);
  }

  lemma FileForward(s: State, step: Step, t: State)
    requires Inv(s) && Next(s, step, t) && !step.HostCrash?
    ensures s.file.Some? ==> Reached(s.file.value.epoch, s.file.value.seqno, t.file)
  {
    hide Acks, Phase, FailClosed, DpOrdered, CpStep, TxnStep, OperatorStep, DpStep, Publish;
    if CpStep(s, step, t) {
      CpWritesFile(s, step, t);
    } else if TxnStep(s, step, t) {
      TxnWritesFile(s, step, t);
    } else {
      OthersKeepFile(s, step, t);
    }
  }

  /** The file is what was just published, or what it was. */
  predicate FileFollows(s: State, t: State) {
    t.file == s.file ||
    (s.cp.Up? && t.file == Some(Snapshot(s.cp.epoch, s.cp.seqno + 1, s.cp.registry)))
  }

  lemma CpWritesFile(s: State, step: Step, t: State)
    requires CpStep(s, step, t)
    ensures FileFollows(s, t)
  {
    hide OnMessage, Boot;
  }

  lemma TxnWritesFile(s: State, step: Step, t: State)
    requires TxnStep(s, step, t)
    ensures FileFollows(s, t)
  {
    hide JournalWrite, Acknowledged, LiveIds, PreviousDisabled, DisableAll, RestoreFlags;
  }

  lemma OthersKeepFile(s: State, step: Step, t: State)
    requires OperatorStep(s, step, t) || DpStep(s, step, t) || (EnvStep(s, step, t) && !step.HostCrash?)
    ensures t.file == s.file
  {
    hide JournalWrite, WithoutId, WeightUpdate.Apply;
  }

  lemma ViewForward(s: State, step: Step, t: State, i: nat)
    requires Inv(s) && Next(s, step, t) && i < |s.dps| && !step.HostCrash?
    ensures |t.dps| == |s.dps|
    ensures s.dps[i].view.Some? && !step.DpCrash? ==> Reached(s.dps[i].Epoch(), s.dps[i].Seqno(), t.dps[i].view)
  {
    hide Acks, Phase, FailClosed, Epochs, TxnStep, Boot, JournalWrite, OnMessage;
    assert DpOrdered(s.dps[i], s.file);
    if TxnStep(s, step, t) { TxnKeepsDps(s, step, t); }
  }

  lemma TxnKeepsDps(s: State, step: Step, t: State)
    requires TxnStep(s, step, t)
    ensures t.dps == s.dps
  {
    hide JournalWrite, Acknowledged, LiveIds, PreviousDisabled, DisableAll, RestoreFlags;
  }

  // ---------------------------------------------------------------- a newer file is taken

  /** The file is later in publication order than what data plane `i` has applied. */
  predicate FileIsNewer(s: State, i: nat)
    requires i < |s.dps|
  {
    s.file.Some? && (s.dps[i].view.Some? ==>
      !AtMost(s.file.value.epoch, s.file.value.seqno, s.dps[i].view.value.epoch, s.dps[i].view.value.seqno))
  }

  /** Nothing but its own steps touches a live data plane. */
  lemma DpKept(s: State, step: Step, t: State, i: nat)
    requires Next(s, step, t) && i < |s.dps| && s.dps[i].alive && s.dps[i].pending.Some?
    requires step != DpApply(i) && step != DpCrash(i) && !step.HostCrash?
    ensures |t.dps| == |s.dps| && t.dps[i] == s.dps[i]
  {
    hide TxnStep, Boot, JournalWrite, OnMessage, WeightUpdate.Apply;
    if TxnStep(s, step, t) { TxnKeepsDps(s, step, t); }
  }

  lemma {:induction false} ReadStaysPending(states: seq<State>, steps: seq<Step>, i: nat, a: nat, b: nat)
    requires Run(states, steps) && a < b < |states| && steps[a] == DpRead(i)
    requires forall k :: a < k < b ==> steps[k] != DpApply(i) && steps[k] != DpCrash(i) && !steps[k].HostCrash?
    ensures i < |states[a].dps| && |states[b].dps| == |states[a].dps|
    ensures states[b].dps[i] == states[a].dps[i].(pending := states[a].file) && states[a].file.Some? && states[b].dps[i].alive
  {
    hide Init, CpStep, TxnStep, OperatorStep, EnvStep;
    assert Next(states[b - 1], steps[b - 1], states[b]);
    if b == a + 1 {
      ReadIsDpStep(states[a], steps[a], states[b]);
    } else {
      ReadStaysPending(states, steps, i, a, b - 1);
      DpKept(states[b - 1], steps[b - 1], states[b], i);
    }
  }

  lemma ReadIsDpStep(s: State, step: Step, t: State)
    requires Next(s, step, t) && (step.DpRead? || step.DpApply?)
    ensures DpStep(s, step, t)
  {
  }

  /**
   A data plane that reads a newer file and then applies what it read has that file as its view, whatever
   happens in between, a file published meanwhile included.
   */
  lemma NewerFileIsApplied(states: seq<State>, steps: seq<Step>, i: nat, a: nat, b: nat)
    requires Run(states, steps) && a < b < |steps| && steps[a] == DpRead(i) && steps[b] == DpApply(i)
    requires forall k :: a < k < b ==> steps[k] != DpApply(i) && steps[k] != DpCrash(i) && !steps[k].HostCrash?
    ensures i < |states[a].dps| == |states[b + 1].dps|
    ensures FileIsNewer(states[a], i) ==>
      states[b + 1].dps[i].view == states[a].file && states[b + 1].dps[i].pending.None?
  {
    ReadStaysPending(states, steps, i, a, b);
    assert Next(states[b], steps[b], states[b + 1]);
    RunInv(states, steps, a);
    hide Run, Next, Inv;
    ReadIsDpStep(states[b], steps[b], states[b + 1]);
  }

  /** And nothing holds a live data plane up: in every state it can read and apply a newer file. */
  lemma NewerFileCanBeApplied(s: State, i: nat)
    requires i < |s.dps| && s.dps[i].alive && s.dps[i].pending.None? && FileIsNewer(s, i)
    ensures exists t, u :: Next(s, DpRead(i), t) && Next(t, DpApply(i), u) && u.dps[i].view == s.file
  {
    var t := s.(dps := s.dps[i := s.dps[i].(pending := s.file)]);
    var u := t.(dps := t.dps[i := WeightUpdate.Apply(t.dps[i])]);
    assert DpStep(s, DpRead(i), t) && DpStep(t, DpApply(i), u);
    assert Next(s, DpRead(i), t) && Next(t, DpApply(i), u);
  }

  // ---------------------------------------------------------------- the window is reachable

  /**
   One data plane and one configured worker: the data plane applies and acknowledges the first snapshot,
   then the disabled one, up to the moment the broadcast starts.
   */
  function Script(): seq<Step> {
    [ CpBoot, BootPublish(true), DpSpawn(0, 7), DpHello(0), Deliver(Hello(0, 1, 7)),
      DpRead(0), DpApply(0), DpBeat(0, true), Deliver(Beat(0, 1, 7, 1, 1, true)),
      Begin(true), DisableTargets, PublishDisabled(true),
      DpRead(0), DpApply(0), DpBeat(0, true), Deliver(Beat(0, 1, 7, 1, 2, true)), AckPassed({0}) ]
  }

  /** What the control plane knows of the data plane. */
  function Knew(epoch: nat, seqno: nat): Records {
    map[0 := InternalChannel.Record(1, 7, epoch, seqno, true)]
  }

  /** The control plane in every scene of the script. */
  function CpScene(worker: WorkerId, k: nat): ControlPlane {
    var open, shut, previous := map[worker := Row(Unknown, false)], map[worker := Row(Unknown, true)], map[worker := false];
    if k == 0 then Down
    else if k == 1 then Up(1, open, 0, map[], Starting)
    else if k <= 4 then Up(1, open, 1, map[], Idle)
    else if k <= 8 then Up(1, open, 1, Knew(0, 0), Idle)
    else if k == 9 then Up(1, open, 1, Knew(1, 1), Idle)
    else if k == 10 then Up(1, open, 1, Knew(1, 1), Journaled({worker}, previous))
    else if k == 11 then Up(1, shut, 1, Knew(1, 1), Disabled({worker}, previous))
    else if k <= 15 then Up(1, shut, 2, Knew(1, 1), Waiting({worker}, previous, 2))
    else if k == 16 then Up(1, shut, 2, Knew(1, 2), Waiting({worker}, previous, 2))
    else Up(1, shut, 2, Knew(1, 2), Sending({worker}, previous))
  }

  function DpScene(worker: WorkerId, k: nat): DataPlane {
    var first := Some(Snapshot(1, 1, map[worker := Row(Unknown, false)]));
    var second := Some(Snapshot(1, 2, map[worker := Row(Unknown, true)]));
    if k < 3 then DataPlane(false, 0, 0, None, None)
    else if k < 6 then DataPlane(true, 1, 7, None, None)
    else if k == 6 then DataPlane(true, 1, 7, None, first)
    else if k < 13 then DataPlane(true, 1, 7, first, None)
    else if k == 13 then DataPlane(true, 1, 7, first, second)
    else DataPlane(true, 1, 7, second, None)
  }

  function Scene(worker: WorkerId, k: nat): State {
    var free, held := JournalState(Absent, {Absent}), JournalState(Entry({worker}), {Entry({worker})});
    var first := Some(Snapshot(1, 1, map[worker := Row(Unknown, false)]));
    var second := Some(Snapshot(1, 2, map[worker := Row(Unknown, true)]));
    State(CpScene(worker, k), if k == 0 then 1 else 2, if k < 2 then None else if k < 12 then first else second,
          if k < 10 then free else held, [DpScene(worker, k)],
          (if k < 4 then {} else {Hello(0, 1, 7)}) + (if k < 8 then {} else {Beat(0, 1, 7, 1, 1, true)})
          + (if k < 15 then {} else {Beat(0, 1, 7, 1, 2, true)}),
          {worker}, if k < 17 then {} else {worker})
  }

  lemma ScenesToStart(worker: WorkerId, k: nat)
    requires k < 4
    ensures Next(Scene(worker, k), Script()[k], Scene(worker, k + 1))
  {
    var s, step, t := Scene(worker, k), Script()[k], Scene(worker, k + 1);
    if k == 0 {
      assert BuildWorkers({worker}) == map[worker := Row(Unknown, false)] == Recover(BuildWorkers({worker}), Absent);
    }
    assert if k < 2 then CpStep(s, step, t) else DpStep(s, step, t);
  }

  lemma WhatIsLearnt()
    ensures OnMessage(map[], Hello(0, 1, 7)).0 == Knew(0, 0)
    ensures OnMessage(Knew(0, 0), Beat(0, 1, 7, 1, 1, true)).0 == Knew(1, 1)
    ensures OnMessage(Knew(1, 1), Beat(0, 1, 7, 1, 2, true)).0 == Knew(1, 2)
  {
  }

  lemma ScenesDelivered(worker: WorkerId, k: nat)
    requires k in {4, 8, 15}
    ensures Next(Scene(worker, k), Script()[k], Scene(worker, k + 1))
  {
    hide OnMessage, Knew;
    WhatIsLearnt();
    assert CpStep(Scene(worker, k), Script()[k], Scene(worker, k + 1));
  }

  lemma ScenesRead(worker: WorkerId, k: nat)
    requires k in {5, 12}
    ensures Next(Scene(worker, k), Script()[k], Scene(worker, k + 1))
  {
    hide CpScene, Knew;
    SameCpScene(worker, k);
    assert DpStep(Scene(worker, k), Script()[k], Scene(worker, k + 1));
  }

  lemma ScenesApplied(worker: WorkerId, k: nat)
    requires k in {6, 13}
    ensures Next(Scene(worker, k), Script()[k], Scene(worker, k + 1))
  {
    hide CpScene, Knew;
    SameCpScene(worker, k);
    assert DpStep(Scene(worker, k), Script()[k], Scene(worker, k + 1));
  }

  lemma ScenesBeat(worker: WorkerId, k: nat)
    requires k in {7, 14}
    ensures Next(Scene(worker, k), Script()[k], Scene(worker, k + 1))
  {
    hide CpScene, Knew;
    SameCpScene(worker, k);
    assert DpStep(Scene(worker, k), Script()[k], Scene(worker, k + 1));
  }

  lemma SameCpScene(worker: WorkerId, k: nat)
    requires k in {5, 6, 7, 12, 13, 14}
    ensures CpScene(worker, k) == CpScene(worker, k + 1)
  {
  }

  lemma SceneBegins(worker: WorkerId)
    ensures Next(Scene(worker, 9), Script()[9], Scene(worker, 10))
  {
    hide Knew, DpScene;
    var open := map[worker := Row(Unknown, false)];
    assert LiveIds(open) == {worker} && PreviousDisabled(open, {worker}) == map[worker := false];
    assert DpScene(worker, 9) == DpScene(worker, 10) by { SameDpScene(worker); }
    assert TxnStep(Scene(worker, 9), Script()[9], Scene(worker, 10));
  }

  lemma SameDpScene(worker: WorkerId)
    ensures forall k: nat :: 7 <= k < 13 ==> DpScene(worker, k) == DpScene(worker, 7)
  {
  }

  lemma ScenesToBarrier(worker: WorkerId, k: nat)
    requires k in {10, 11, 16}
    ensures Next(Scene(worker, k), Script()[k], Scene(worker, k + 1))
  {
    assert DisableAll(map[worker := Row(Unknown, false)], {worker}) == map[worker := Row(Unknown, true)];
    assert TxnStep(Scene(worker, k), Script()[k], Scene(worker, k + 1));
  }

  /** The guarantees above are about states that exist: a run reaches the broadcast window. */
  lemma BroadcastIsReachable(worker: WorkerId)
    ensures var states := seq(18, k requires 0 <= k < 18 => Scene(worker, k));
      && Run(states, Script())
      && InBroadcastWindow(states[17])
      && states[17].cp.txn.targets == {worker} == states[17].uncertain
      && states[9].cp.records[0].seqno == 1 && states[16].cp.records[0].seqno == 2
  {
    hide Next;
    forall k | 0 <= k < 17 ensures Next(Scene(worker, k), Script()[k], Scene(worker, k + 1)) {
      if k < 4 { ScenesToStart(worker, k); }
      else if k in {4, 8, 15} { ScenesDelivered(worker, k); }
      else if k == 9 { SceneBegins(worker); }
      else if k in {10, 11, 16} { ScenesToBarrier(worker, k); }
      else if k in {5, 12} { ScenesRead(worker, k); }
      else if k in {6, 13} { ScenesApplied(worker, k); }
      else { ScenesBeat(worker, k); }
    }
  }
}
