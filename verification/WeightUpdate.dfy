/**
 The weight-update transaction as a step relation over the whole router: one control plane, the
 data planes, the durable journal, the published snapshot file and a network that may delay,
 duplicate, reorder or lose every message. The control plane and the data planes may crash
 between any two steps; a host crash also loses whatever the journal had not made durable.
 */
module WeightUpdate {
  import opened RouterTypes
  import opened InternalChannel
  import opened SnapshotFile
  import opened UpdateJournal

  /** The running phases of the transaction. `sent` says whether anything may have reached a worker. */
  datatype Txn =
    | Starting
    | Idle
    | Journaled(targets: set<WorkerId>, previous: map<WorkerId, bool>)
    | Disabled(targets: set<WorkerId>, previous: map<WorkerId, bool>)
    | Waiting(targets: set<WorkerId>, previous: map<WorkerId, bool>, ackSeq: nat)
    | Sending(targets: set<WorkerId>, previous: map<WorkerId, bool>)
    | Settled(targets: set<WorkerId>, safe: bool, sent: bool)
    | Recorded(targets: set<WorkerId>, safe: bool, sent: bool)
  {
    /** The control plane runs other handlers only where the transaction handler awaits. */
    predicate Yields() {
      Idle? || Waiting? || Sending?
    }

    function Targets(): set<WorkerId> {
      if Starting? || Idle? then {} else targets
    }
  }

  datatype ControlPlane =
    | Down
    | Up(epoch: nat, registry: Registry, seqno: nat, records: Records, txn: Txn)

  /** `view` is the applied snapshot; `pending` one that was read from the file but not applied yet. */
  datatype DataPlane = DataPlane(
    alive: bool, generation: nat, pid: nat, view: Option<Snapshot>, pending: Option<Snapshot>)
  {
    function Epoch(): nat { if view.Some? then view.value.epoch else 0 }
    function Seqno(): nat { if view.Some? then view.value.seqno else 0 }

    /** The data plane may route a new request to `id`. */
    predicate CanSelect(id: WorkerId) {
      alive && view.Some? && id in view.value.workers && view.value.workers[id].Routable()
    }
  }

  /** `uncertain` is history only: workers a broadcast reached without a known all-success outcome. */
  datatype State = State(
    cp: ControlPlane,
    nextEpoch: nat,
    file: Option<Snapshot>,
    journal: JournalState,
    dps: seq<DataPlane>,
    net: set<Message>,
    config: set<WorkerId>,
    uncertain: set<WorkerId>)

  // ---------------------------------------------------------------- pieces of steps

  /** A restarted control plane rebuilds its registry from the file, or from configuration if there is none. */
  function Boot(s: State): ControlPlane {
    var restored := if s.file.Some? then s.file.value.workers else BuildWorkers(s.config);
    Up(s.nextEpoch, Recover(restored, s.journal.visible), 0, map[], Starting)
  }

  function Apply(dp: DataPlane): DataPlane
    requires dp.pending.Some?
  {
    if ReaderAccepts(dp.view, dp.pending.value) then dp.(view := dp.pending, pending := None)
    else dp.(pending := None)
  }

  /** The sequence number advances even when writing the file fails. */
  function Publish(s: State, ok: bool, txn: Txn): State
    requires s.cp.Up?
  {
    var cp := s.cp.(seqno := s.cp.seqno + 1, txn := txn);
    var file := if ok then Some(Snapshot(cp.epoch, cp.seqno, cp.registry)) else s.file;
    s.(cp := cp, file := file)
  }

  function WithTxn(s: State, txn: Txn): State
    requires s.cp.Up?
  {
    s.(cp := s.cp.(txn := txn))
  }

  function WithRow(s: State, id: WorkerId, row: Row): State
    requires s.cp.Up?
  {
    s.(cp := s.cp.(registry := s.cp.registry[id := row]))
  }

  // ---------------------------------------------------------------- steps

  datatype Step =
    | CpCrash
    | CpBoot
    | BootPublish(ok: bool)
    | Refresh(ok: bool)
    | Probe(id: WorkerId, health: Health)
    | Deliver(m: Message)
    // the transaction, phase by phase
    | Begin(ok: bool)
    | DisableTargets
    | PublishDisabled(ok: bool)
    | AckPassed(live: set<nat>)
    | AckTimedOut
    | Cancelled
    | AllSucceeded
    | SomeFailed
    | Record(ok: bool)
    | PublishOutcome(ok: bool)
    // the operator
    | Enable(id: WorkerId, ok: bool)
    | Disable(id: WorkerId)
    | MarkDead(id: WorkerId)
    | ClearDead(id: WorkerId)
    | Create(id: WorkerId, health: Health)
    | Delete(id: WorkerId)
    | Resolve(ok: bool)
    // the data planes
    | DpRead(i: nat)
    | DpApply(i: nat)
    | DpHello(i: nat)
    | DpBeat(i: nat, serving: bool)
    | DpCrash(i: nat)
    | DpSpawn(i: nat, pid: nat)
    // the environment
    | JournalDamaged
    | HostCrash(survivor: JournalDoc)

  predicate CpStep(s: State, step: Step, t: State) {
    match step
    case CpCrash => s.cp.Up? && t == s.(cp := Down)
    case CpBoot => s.cp.Down? && t == s.(cp := Boot(s), nextEpoch := s.nextEpoch + 1)
    case BootPublish(ok) =>
      s.cp.Up? && s.cp.txn.Starting? && t == if ok then Publish(s, true, Idle) else s.(cp := Down)
    case Refresh(ok) => s.cp.Up? && s.cp.txn.Yields() && t == Publish(s, ok, s.cp.txn)
    case Probe(id, health) =>
      && s.cp.Up? && s.cp.txn.Yields() && id in s.cp.registry
      && s.cp.registry[id].health != Dead && health != Dead
      && t == WithRow(s, id, s.cp.registry[id].(health := health))
    case Deliver(m) =>
      && s.cp.Up? && s.cp.txn.Yields() && m in s.net
      && t == s.(cp := s.cp.(records := OnMessage(s.cp.records, m).0))
    case _ => false
  }

  predicate TxnStep(s: State, step: Step, t: State) {
    && s.cp.Up?
    && match step
       case Begin(ok) =>
         && s.cp.txn.Idle? && !s.journal.visible.HasPending()
         && var targets := LiveIds(s.cp.registry);
         && targets != {}
         && JournalWrite(s.journal, t.journal, Entry(targets), ok)
         && t == if ok
                 then WithTxn(s, Journaled(targets, PreviousDisabled(s.cp.registry, targets))).(journal := t.journal)
                 else s.(journal := t.journal)
       case DisableTargets =>
         && s.cp.txn.Journaled?
         && t == s.(cp := s.cp.(registry := DisableAll(s.cp.registry, s.cp.txn.targets),
                                txn := Disabled(s.cp.txn.targets, s.cp.txn.previous)))
       case PublishDisabled(ok) =>
         // A failed publish raises before the barrier: the lock is released, the entry stays.
         && s.cp.txn.Disabled?
         && t == Publish(s, ok,
                   if ok then Waiting(s.cp.txn.targets, s.cp.txn.previous, s.cp.seqno + 1) else Idle)
       case AckPassed(live) =>
         && s.cp.txn.Waiting?
         && Acknowledged(Poll(s.cp.records, live, false), |s.dps|, s.cp.epoch, s.cp.txn.ackSeq)
         && t == WithTxn(s, Sending(s.cp.txn.targets, s.cp.txn.previous)).(
                   uncertain := s.uncertain + s.cp.txn.targets)
       case AckTimedOut =>
         && s.cp.txn.Waiting?
         && t == s.(cp := s.cp.(registry := RestoreFlags(s.cp.registry, s.cp.txn.previous),
                                txn := Settled(s.cp.txn.targets, true, false)))
       case Cancelled =>
         && s.cp.txn.Waiting?
         && t == s.(cp := s.cp.(registry := DisableAll(s.cp.registry, s.cp.txn.targets),
                                txn := Settled(s.cp.txn.targets, false, false)))
       case AllSucceeded =>
         && s.cp.txn.Sending?
         && t == s.(cp := s.cp.(registry := RestoreFlags(s.cp.registry, s.cp.txn.previous),
                                txn := Settled(s.cp.txn.targets, true, true)),
                    uncertain := s.uncertain - s.cp.txn.targets)
       case SomeFailed =>
         && s.cp.txn.Sending?
         && t == s.(cp := s.cp.(registry := DisableAll(s.cp.registry, s.cp.txn.targets),
                                txn := Settled(s.cp.txn.targets, false, true)))
       case Record(ok) =>
         && s.cp.txn.Settled?
         && JournalWrite(s.journal, t.journal, if s.cp.txn.safe then Absent else Entry(s.cp.txn.targets), ok)
         && t == WithTxn(s, Recorded(s.cp.txn.targets, s.cp.txn.safe, s.cp.txn.sent)).(journal := t.journal)
       case PublishOutcome(ok) =>
         s.cp.txn.Recorded? && t == Publish(s, ok, Idle)
       case _ => false
  }

  /** Operator requests are refused while an update holds or awaits the lock. */
  predicate OperatorStep(s: State, step: Step, t: State) {
    && s.cp.Up? && s.cp.txn.Idle?
    && match step
       case Enable(id, ok) =>
         && id in s.cp.registry
         && if s.journal.visible.Unreadable? then !ok && t == s
            else
              && JournalWrite(s.journal, t.journal, WithoutId(s.journal.visible, id), ok)
              && t == (if ok then WithRow(s, id, s.cp.registry[id].(disabled := false)) else s).(
                        journal := t.journal, uncertain := s.uncertain - {id})
       case Disable(id) =>
         id in s.cp.registry && t == WithRow(s, id, s.cp.registry[id].(disabled := true))
       case MarkDead(id) =>
         id in s.cp.registry && t == WithRow(s, id, s.cp.registry[id].(health := Dead))
       case ClearDead(id) =>
         && id in s.cp.registry && s.cp.registry[id].health == Dead
         && t == WithRow(s, id, s.cp.registry[id].(health := Unknown))
       case Create(id, health) =>
         && id !in s.cp.registry && health != Dead
         && t == WithRow(s, id, Row(health, s.journal.visible.Blocks(id)))
       case Delete(id) =>
         id in s.cp.registry && t == s.(cp := s.cp.(registry := s.cp.registry - {id}))
       case Resolve(ok) =>
         && JournalWrite(s.journal, t.journal, Absent, ok)
         && t == s.(journal := t.journal, uncertain := {})
       case _ => false
  }

  predicate DpStep(s: State, step: Step, t: State) {
    match step
    case DpRead(i) =>
      && i < |s.dps| && s.dps[i].alive && s.dps[i].pending.None? && s.file.Some?
      && t == s.(dps := s.dps[i := s.dps[i].(pending := s.file)])
    case DpApply(i) =>
      && i < |s.dps| && s.dps[i].alive && s.dps[i].pending.Some?
      && t == s.(dps := s.dps[i := Apply(s.dps[i])])
    case DpHello(i) =>
      && i < |s.dps| && s.dps[i].alive
      && t == s.(net := s.net + {Hello(i, s.dps[i].generation, s.dps[i].pid)})
    case DpBeat(i, serving) =>
      && i < |s.dps| && s.dps[i].alive
      && t == s.(net := s.net + {Beat(i, s.dps[i].generation, s.dps[i].pid,
                                      s.dps[i].Epoch(), s.dps[i].Seqno(), serving)})
    case DpCrash(i) =>
      && i < |s.dps| && s.dps[i].alive
      && t == s.(dps := s.dps[i := s.dps[i].(alive := false, view := None, pending := None)])
    case DpSpawn(i, pid) =>
      && i < |s.dps| && !s.dps[i].alive
      && t == s.(dps := s.dps[i := DataPlane(true, s.dps[i].generation + 1, pid, None, None)])
    case _ => false
  }

  predicate EnvStep(s: State, step: Step, t: State) {
    match step
    case JournalDamaged => t == s.(journal := JournalState(Unreadable, {Unreadable}))
    case HostCrash(survivor) =>
      && survivor in s.journal.durable
      && t == s.(cp := Down, file := None, net := {},
                 journal := JournalState(survivor, {survivor}),
                 dps := seq(|s.dps|, i => DataPlane(false, 0, 0, None, None)))
    case _ => false
  }

  predicate Next(s: State, step: Step, t: State) {
    CpStep(s, step, t) || TxnStep(s, step, t) || OperatorStep(s, step, t) || DpStep(s, step, t) || EnvStep(s, step, t)
  }

  predicate Init(s: State) {
    && s.cp.Down? && s.nextEpoch == 1 && s.file.None? && s.net == {} && s.uncertain == {}
    && s.journal == JournalState(Absent, {Absent})
    && (forall i :: 0 <= i < |s.dps| ==> s.dps[i] == DataPlane(false, 0, 0, None, None))
  }

  /** `steps[k]` leads from `states[k]` to `states[k + 1]`. */
  predicate Run(states: seq<State>, steps: seq<Step>) {
    && |states| == |steps| + 1
    && Init(states[0])
    && forall k :: 0 <= k < |steps| ==> Next(states[k], steps[k], states[k + 1])
  }
}
