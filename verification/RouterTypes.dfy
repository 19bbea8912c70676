/** Values shared by the control plane, the data planes and the journal. */
module RouterTypes {

  datatype Option<+T> = None | Some(value: T)

  type WorkerId = string

  datatype Health = Dead | Healthy | Unhealthy | Unknown

  /** One registered worker as the snapshot sees it. */
  datatype Row = Row(health: Health, disabled: bool) {
    predicate Routable() {
      health == Healthy && !disabled
    }
  }

  type Registry = map<WorkerId, Row>

  /** The published worker file. Epochs are the control plane's incarnations (1, 2, ...). */
  datatype Snapshot = Snapshot(epoch: nat, seqno: nat, workers: Registry)

  /** Publication order: epochs first, then the sequence number inside one epoch. */
  predicate AtMost(e0: nat, s0: nat, e1: nat, s1: nat) {
    e0 < e1 || (e0 == e1 && s0 <= s1)
  }

  /** What the journal file holds: nothing, a set of unresolved targets, or bytes nobody can read. */
  datatype JournalDoc = Absent | Entry(ids: set<WorkerId>) | Unreadable {
    /** True when this document keeps worker `id` from being enabled. */
    predicate Blocks(id: WorkerId) {
      match this
      case Absent => false
      case Entry(ids) => id in ids
      case Unreadable => true
    }

    /** True when the document makes the router refuse a new weight update. */
    predicate HasPending() {
      Unreadable? || (Entry? && ids != {})
    }
  }

  // ---------------------------------------------------------------- registry updates

  function LiveIds(reg: Registry): set<WorkerId> {
    set id | id in reg && reg[id].health != Dead
  }

  function PreviousDisabled(reg: Registry, targets: set<WorkerId>): map<WorkerId, bool> {
    map id | id in targets && id in reg :: reg[id].disabled
  }

  function DisableAll(reg: Registry, targets: set<WorkerId>): Registry {
    map id | id in reg :: if id in targets then reg[id].(disabled := true) else reg[id]
  }

  function RestoreFlags(reg: Registry, previous: map<WorkerId, bool>): Registry {
    map id | id in reg :: if id in previous then reg[id].(disabled := previous[id]) else reg[id]
  }

  /** Start-up recovery: every worker the journal blocks starts disabled. */
  function Recover(reg: Registry, doc: JournalDoc): Registry {
    map id | id in reg :: if doc.Blocks(id) then reg[id].(disabled := true) else reg[id]
  }

  /** Workers built from the static configuration start enabled and unprobed. */
  function BuildWorkers(config: set<WorkerId>): Registry {
    map id | id in config :: Row(Unknown, false)
  }

  predicate AllDisabled(reg: Registry, ids: set<WorkerId>) {
    forall id :: id in ids && id in reg ==> reg[id].disabled
  }

  lemma DisableOneMore(reg: Registry, ids: set<WorkerId>, id: WorkerId)
    ensures DisableAll(reg, ids + {id}) ==
      if id in reg then DisableAll(reg, ids)[id := DisableAll(reg, ids)[id].(disabled := true)] else DisableAll(reg, ids)
  {
  }

  lemma RecoverDisables(reg: Registry, doc: JournalDoc)
    ensures Recover(reg, doc) ==
      match doc case Absent => reg case Entry(ids) => DisableAll(reg, ids) case Unreadable => DisableAll(reg, reg.Keys)
  {
  }

  function RestoreSome(reg: Registry, previous: map<WorkerId, bool>, ids: set<WorkerId>): Registry {
    map id | id in reg :: if id in previous && id in ids then reg[id].(disabled := previous[id]) else reg[id]
  }

  lemma RestoreOneMore(reg: Registry, previous: map<WorkerId, bool>, ids: set<WorkerId>, id: WorkerId)
    requires id in reg && id in previous
    ensures RestoreSome(reg, previous, ids + {id}) ==
      RestoreSome(reg, previous, ids)[id := RestoreSome(reg, previous, ids)[id].(disabled := previous[id])]
  {
  }

  lemma RestoreNothing(reg: Registry, previous: map<WorkerId, bool>)
    ensures RestoreSome(reg, previous, {}) == reg
  {
  }

  lemma RestoreEverything(reg: Registry, previous: map<WorkerId, bool>)
    ensures RestoreSome(reg, previous, previous.Keys) == RestoreFlags(reg, previous)
  {
  }

  // ---------------------------------------------------------------- while a handler awaits

  /** Same workers, same disabled flags; health may differ. */
  predicate SameFlags(reg: Registry, found: Registry) {
    reg.Keys == found.Keys && forall id :: id in found ==> reg[id].disabled == found[id].disabled
  }

  /** What others do on the event loop meanwhile. */
  datatype Event = ProbeResult(id: WorkerId, health: Health) | Keepalive

  /** A probe neither marks a worker dead nor revives a dead one. */
  function Probed(reg: Registry, event: Event): Registry {
    if event.ProbeResult? && event.id in reg && reg[event.id].health != Dead && event.health != Dead then
      reg[event.id := reg[event.id].(health := event.health)]
    else
      reg
  }

  function ProbedAll(reg: Registry, events: seq<Event>): Registry {
    if events == [] then reg else Probed(ProbedAll(reg, events[..|events| - 1]), events[|events| - 1])
  }

  /** Probes take effect one after the other, none is skipped. */
  lemma {:induction false} ProbesInOrder(reg: Registry, first: seq<Event>, later: seq<Event>)
    ensures ProbedAll(reg, first + later) == ProbedAll(ProbedAll(reg, first), later)
    ensures forall event :: ProbedAll(reg, [event]) == Probed(reg, event)
    decreases |later|
  {
    if later == [] {
      assert first + later == first;
    } else {
      var n := |later| - 1;
      assert (first + later)[..|first + later| - 1] == first + later[..n];
      ProbesInOrder(reg, first, later[..n]);
    }
  }

  lemma {:induction false} ProbesKeepFlags(reg: Registry, events: seq<Event>)
    ensures SameFlags(ProbedAll(reg, events), reg)
  {
    if events != [] { ProbesKeepFlags(reg, events[..|events| - 1]); }
  }

  /** What probes find does not depend on who is disabled. */
  lemma {:induction false} ProbesIgnoreFlags(reg: Registry, other: Registry, events: seq<Event>)
    requires reg.Keys == other.Keys && forall id :: id in reg ==> reg[id].health == other[id].health
    ensures ProbedAll(reg, events).Keys == ProbedAll(other, events).Keys
    ensures forall id :: id in ProbedAll(reg, events) ==>
      ProbedAll(reg, events)[id].health == ProbedAll(other, events)[id].health
  {
    if events != [] { ProbesIgnoreFlags(reg, other, events[..|events| - 1]); }
  }

  /** Probes between disabling and restoring are kept; the flags come back as they were. */
  lemma RestoreAfterProbes(found: Registry, targets: set<WorkerId>, events: seq<Event>)
    ensures RestoreFlags(ProbedAll(DisableAll(found, targets), events), PreviousDisabled(found, targets)) ==
      ProbedAll(found, events)
    ensures DisableAll(ProbedAll(DisableAll(found, targets), events), targets) ==
      DisableAll(ProbedAll(found, events), targets)
  {
    var shut := ProbedAll(DisableAll(found, targets), events);
    ProbesKeepFlags(DisableAll(found, targets), events);
    ProbesKeepFlags(found, events);
    ProbesIgnoreFlags(DisableAll(found, targets), found, events);
    hide ProbedAll;
    assert RestoreFlags(shut, PreviousDisabled(found, targets)).Keys == ProbedAll(found, events).Keys;
  }
}
