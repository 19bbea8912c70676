/**
 The control plane's registry handlers: start-up recovery, the locked weight-update broadcast and
 the operator's worker edits. Each is proved against the registry functions and the journal
 relation that the step relation in `WeightUpdate` is made of. The single-process router shares them:
 only it has a voice owner, and only the multi-process control plane publishes.
 */
module ControlPlane {
  import opened RouterTypes
  import opened Workers
  import opened UpdateJournal

  /** What the barrier ended with, seen from the handler that awaits it. */
  datatype AckOutcome = Acked | TimedOut | BarrierCancelled

  /** `None` is a broadcast that was cancelled or raised; otherwise one success flag per target. */
  type Results = Option<seq<bool>>

  /**
   Publishing raises when the snapshot cannot be written; `published` says of the last one whether it was.
   `EarlierPending` is the 409 for an unresolved update, `NoLiveWorkers` a 503, `SingleReplicaOnly` a 422.
   */
  datatype BroadcastReply =
    | EarlierPending
    | NoLiveWorkers
    | SingleReplicaOnly
    | Refused
    | NotSent
    | Finished(safe: bool, journaled: bool, published: bool)

  /** This update makes every worker join one group under the same rank. */
  const INIT_GROUP: string := "/init_weights_update_group"

  /** `NotPublished` is the exception of a failing publish, after the edit took effect. */
  datatype EditReply = Done | NotPublished | NotFound | AlreadyRegistered | Invalid | NotDurable | OwnerConflict

  const VOICE_OWNER_CAPABILITIES: set<string> := {"speech", "audio_input"}

  /** The fields of a PUT; absent ones stay as they are. */
  datatype Change = Change(config: Option<Config>, disabled: Option<bool>, isDead: Option<bool>)

  function Changed(row: Row, change: Change): Row {
    Row(if change.isDead == Some(true) then Health.Dead
        else if change.isDead == Some(false) && row.health == Health.Dead then Unknown
        else row.health,
        if change.disabled.Some? then change.disabled.value else row.disabled)
  }

  /** What was asked for holds afterwards, and what was not asked for is as it was. */
  predicate Obeys(row: Row, change: Change, after: Row) {
    && (change.disabled.Some? ==> after.disabled == change.disabled.value)
    && (change.disabled.None? ==> after.disabled == row.disabled)
    && (change.isDead == Some(true) ==> after.health == Health.Dead)
    && (change.isDead == Some(false) ==> after.health != Health.Dead)
    && (change.isDead == None || (change.isDead == Some(false) && row.health != Health.Dead) ==> after.health == row.health)
    && (change.isDead == Some(false) && row.health == Health.Dead ==> after.health == Unknown)
  }

  /** What an accepted re-enable leaves of the journal is what was there. */
  predicate NothingToDiscard(before: JournalState, id: WorkerId) {
    before.durable == {before.visible} && before.visible != Entry({}) && !before.visible.Blocks(id)
  }

  /** The targets are durably recorded: no crash leaves anything else. */
  function Journaled(ids: set<WorkerId>): JournalState {
    JournalState(Entry(ids), {Entry(ids)})
  }

  function Urls(ws: seq<Worker>): set<WorkerId> {
    set w | w in ws :: w.url
  }

  /** The shared `workers` list: the objects, and the registry they amount to. */
  class WorkerPool {
    var workers: seq<Worker>
    ghost var reg: Registry

    ghost predicate Valid()
      reads this, workers
    {
      && (forall i, j :: 0 <= i < j < |workers| ==> workers[i].url != workers[j].url)
      && reg.Keys == Urls(workers)
      && (forall i :: 0 <= i < |workers| ==> workers[i].url in reg && reg[workers[i].url] == workers[i].Row())
    }

    constructor ()
      ensures Valid() && workers == [] && reg == map[]
    {
      workers, reg := [], map[];
    }

    method Find(id: WorkerId) returns (w: Worker?)
      requires Valid()
      ensures w == null <==> id !in reg
      ensures w != null ==> w in workers && w.url == id
    {
      for i := 0 to |workers|
        invariant forall k :: 0 <= k < i ==> workers[k].url != id
      {
        if workers[i].url == id {
          return workers[i];
        }
      }
      w := null;
    }

    method SetDisabled(w: Worker, value: bool)
      requires Valid() && w in workers
      modifies w`disabled, this`reg
      ensures Valid() && w.disabled == value
      ensures w.url in old(reg) && reg == old(reg)[w.url := old(reg)[w.url].(disabled := value)]
    {
      w.SetDisabled(value);
      reg := reg[w.url := reg[w.url].(disabled := value)];
      assert forall i :: 0 <= i < |workers| && workers[i] != w ==> workers[i].url != w.url;
    }

    method SetHealth(w: Worker, health: Health)
      requires Valid() && w in workers
      modifies w`health, this`reg
      ensures Valid() && w.health == health
      ensures w.url in old(reg) && reg == old(reg)[w.url := old(reg)[w.url].(health := health)]
    {
      w.health := health;
      reg := reg[w.url := reg[w.url].(health := health)];
      assert forall i :: 0 <= i < |workers| && workers[i] != w ==> workers[i].url != w.url;
    }

    /** Disable the workers whose ids are listed; ids nobody registered are skipped. */
    method DisableIds(ids: set<WorkerId>)
      requires Valid()
      modifies workers, this`reg
      ensures Valid()
      ensures reg == DisableAll(old(reg), ids)
    {
      var todo := ids;
      ghost var done := {};
      while todo != {}
        invariant Valid() && ids == todo + done
        invariant reg == DisableAll(old(reg), done)
        decreases |todo|
      {
        var id :| id in todo;
        var w := Find(id);
        DisableOneMore(old(reg), done, id);
        if w != null {
          SetDisabled(w, true);
        }
        todo, done := todo - {id}, done + {id};
      }
      assert done == ids;
    }

    method DisableWorkers(targets: seq<Worker>)
      requires Valid()
      requires forall i :: 0 <= i < |targets| ==> targets[i] in workers
      modifies targets, this`reg
      ensures Valid()
      ensures reg == DisableAll(old(reg), Urls(targets))
    {
      ghost var done := {};
      for i := 0 to |targets|
        invariant Valid() && done == Urls(targets[..i])
        invariant reg == DisableAll(old(reg), done)
      {
        DisableOneMore(old(reg), done, targets[i].url);
        SetDisabled(targets[i], true);
        done := done + {targets[i].url};
        assert Urls(targets[..i + 1]) == done;
      }
      assert targets[..|targets|] == targets;
    }

    method RestoreDisabledState(targets: seq<Worker>, previous: map<WorkerId, bool>, safe: bool)
      requires Valid() && previous.Keys == Urls(targets)
      requires forall i :: 0 <= i < |targets| ==> targets[i] in workers
      modifies targets, this`reg
      ensures Valid()
      ensures reg == if safe then RestoreFlags(old(reg), previous) else DisableAll(old(reg), Urls(targets))
    {
      if safe {
        RestoreWorkers(targets, previous);
        RestoreEverything(old(reg), previous);
      } else {
        DisableWorkers(targets);
      }
    }

    method RestoreWorkers(targets: seq<Worker>, previous: map<WorkerId, bool>)
      requires Valid() && previous.Keys == Urls(targets)
      requires forall i :: 0 <= i < |targets| ==> targets[i] in workers
      modifies targets, this`reg
      ensures Valid()
      ensures reg == RestoreSome(old(reg), previous, previous.Keys)
    {
      hide RestoreSome;
      assert RestoreSome(reg, previous, {}) == reg by { RestoreNothing(reg, previous); }
      ghost var done := {};
      for i := 0 to |targets|
        invariant Valid()
        invariant done == Urls(targets[..i])
        invariant reg == RestoreSome(old(reg), previous, done)
      {
        assert targets[i].url in Urls(targets);
        RestoreWorker(targets[i], previous, old(reg), done);
        done := done + {targets[i].url};
        assert Urls(targets[..i + 1]) == done;
      }
      assert targets[..|targets|] == targets;
    }

    method RestoreWorker(w: Worker, previous: map<WorkerId, bool>, ghost found: Registry, ghost done: set<WorkerId>)
      requires Valid() && w in workers && w.url in previous
      requires reg == RestoreSome(found, previous, done)
      modifies w`disabled, this`reg
      ensures Valid()
      ensures reg == RestoreSome(found, previous, done + {w.url})
    {
      assert w.url in found;
      RestoreOneMore(found, previous, done, w.url);
      SetDisabled(w, previous[w.url]);
    }

    method RememberDisabled(targets: seq<Worker>) returns (previous: map<WorkerId, bool>)
      requires Valid()
      requires forall i :: 0 <= i < |targets| ==> targets[i] in workers
      ensures previous == PreviousDisabled(reg, Urls(targets))
      ensures previous.Keys == Urls(targets)
    {
      previous := map[];
      for i := 0 to |targets|
        invariant previous == PreviousDisabled(reg, Urls(targets[..i]))
      {
        previous := previous[targets[i].url := targets[i].disabled];
        assert Urls(targets[..i + 1]) == Urls(targets[..i]) + {targets[i].url};
      }
      assert targets[..|targets|] == targets;
    }

    /** The live objects are the live ids, one for one. */
    lemma LiveUrls(targets: seq<Worker>)
      requires Valid()
      requires forall w :: w in targets <==> w in workers && w.health != Health.Dead
      requires forall j, k :: 0 <= j < k < |targets| ==> targets[j].url != targets[k].url
      ensures Urls(targets) == LiveIds(reg)
      ensures targets == [] <==> LiveIds(reg) == {}
      ensures |targets| > 1 <==> exists id, other :: id in LiveIds(reg) && other in LiveIds(reg) && id != other
    {
      forall id ensures id in Urls(targets) <==> id in LiveIds(reg) {
        if id in LiveIds(reg) {
          var w :| w in workers && w.url == id;
          assert w in targets;
        }
      }
      if targets != [] { assert targets[0].url in Urls(targets); }
      if |targets| > 1 { assert targets[1].url in Urls(targets) && targets[0].url != targets[1].url; }
    }

    lemma OneOfEach(w: Worker)
      requires Valid() && w in workers
      ensures forall x :: x in workers && x.url == w.url ==> x == w
    {
    }

    /** The fields of one worker, all at once. */
    method Rewrite(w: Worker, config: Config, change: Change)
      requires Valid() && w in workers
      modifies w`config, w`health, w`disabled, this`reg
      ensures Valid() && w.config == config
      ensures w.url in old(reg) && reg == old(reg)[w.url := Changed(old(reg)[w.url], change)]
    {
      hide Urls;
      w.config := config;
      ghost var row := reg[w.url];
      if change.disabled.Some? {
        SetDisabled(w, change.disabled.value);
      }
      if change.isDead == Some(true) {
        SetHealth(w, Health.Dead);
      } else if change.isDead == Some(false) && w.health == Health.Dead {
        SetHealth(w, Unknown);
      }
    }

    method Append(w: Worker)
      requires Valid() && w.url !in reg
      modifies this
      ensures Valid() && workers == old(workers) + [w] && reg == old(reg)[w.url := w.Row()]
    {
      workers := workers + [w];
      reg := reg[w.url := w.Row()];
      assert Urls(workers) == Urls(old(workers)) + {w.url};
    }

    method Remove(id: WorkerId) returns (found: bool)
      requires Valid()
      modifies this
      ensures Valid()
      ensures found <==> id in old(reg)
      ensures reg == old(reg) - {id}
    {
      for i := 0 to |workers|
        invariant workers == old(workers) && reg == old(reg)
        invariant forall k :: 0 <= k < i ==> workers[k].url != id
      {
        if workers[i].url == id {
          RemoveAt(i);
          return true;
        }
      }
      return false;
    }

    method RemoveAt(i: nat)
      requires Valid() && i < |workers|
      modifies this
      ensures Valid() && workers == old(workers[..i] + workers[i + 1..])
      ensures reg == old(reg - {workers[i].url})
    {
      RemovedUrls(workers, i);
      ghost var gone := workers[i].url;
      workers := workers[..i] + workers[i + 1..];
      reg := reg - {gone};
    }

    static lemma RemovedUrls(ws: seq<Worker>, i: nat)
      requires i < |ws|
      requires forall j, k :: 0 <= j < k < |ws| ==> ws[j].url != ws[k].url
      ensures Urls(ws[..i] + ws[i + 1..]) == Urls(ws) - {ws[i].url}
    {
    }
  }

  /** A registry handed to the snapshot writer, and what the journal could leave behind at that moment. */
  datatype Publication = Publication(registry: Registry, journal: JournalState)

  /** From `before` on, first `shut` itself and then only registries with its flags, all of them durably journaled. */
  predicate PublishedShut(before: seq<Publication>, now: seq<Publication>, shut: Registry, ids: set<WorkerId>) {
    && |before| < |now| && now[..|before|] == before
    && now[|before|] == Publication(shut, Journaled(ids))
    && forall k :: |before| <= k < |now| ==> now[k].journal == Journaled(ids) && SameFlags(now[k].registry, shut)
  }

  lemma StillShut(
      before: seq<Publication>, first: seq<Publication>, now: seq<Publication>, shut: Registry, ids: set<WorkerId>)
    requires PublishedShut(before, first, shut, ids) && |first| <= |now| && now[..|first|] == first
    requires forall k :: |first| <= k < |now| ==> SameFlags(now[k].registry, shut) && now[k].journal == Journaled(ids)
    ensures PublishedShut(before, now, shut, ids)
  {
    assert now[..|before|] == first[..|before|];
    assert forall k :: 0 <= k < |first| ==> now[k] == first[k];
  }

  datatype StartResult = Started | NotJournaled | NotPublishedShut

  class ControlPlaneApp {
    const journal: UpdateJournal
    const pool: WorkerPool
    ghost var published: seq<Publication>

    ghost predicate Valid()
      reads this, pool, pool.workers, journal.disk
    {
      pool.Valid() && journal.disk.Valid()
    }

    constructor (journal: UpdateJournal, pool: WorkerPool)
      requires journal.disk.Valid() && pool.Valid()
      ensures Valid() && this.journal == journal && this.pool == pool && published == []
    {
      this.journal, this.pool, published := journal, pool, [];
    }

    ghost function Current(): Publication
      requires journal.disk.Valid()
      reads this, pool, journal.disk
    {
      Publication(pool.reg, journal.State())
    }

    method Publish(ok: bool)
      requires journal.disk.Valid()
      modifies this`published
      ensures published == old(published) + if ok then [Current()] else []
    {
      if ok {
        published := published + [Current()];
      }
    }

    /** The event loop runs others: probes change health, the keepalive publishes. */
    method Await(events: seq<Event>)
      requires Valid()
      modifies pool`reg, pool.workers`health, this`published
      ensures Valid()
      ensures pool.reg == ProbedAll(old(pool.reg), events)
      ensures |old(published)| <= |published| && published[..|old(published)|] == old(published)
      ensures forall k :: |old(published)| <= k < |published| ==>
        SameFlags(published[k].registry, old(pool.reg)) && published[k].journal == journal.State()
    {
      hide WorkerPool.Valid, Disk.Valid, Disk.State, SameFlags;
      for i := 0 to |events|
        invariant Valid()
        invariant pool.reg == ProbedAll(old(pool.reg), events[..i])
        invariant |old(published)| <= |published| && published[..|old(published)|] == old(published)
        invariant forall k :: |old(published)| <= k < |published| ==>
          SameFlags(published[k].registry, old(pool.reg)) && published[k].journal == journal.State()
      {
        ProbesKeepFlags(old(pool.reg), events[..i]);
        assert events[..i + 1][..i] == events[..i];
        match events[i]
        case Keepalive => Publish(true);
        case ProbeResult(id, health) => Probe(id, health);
      }
      assert events[..|events|] == events;
    }

    method Probe(id: WorkerId, health: Health)
      requires Valid()
      modifies pool`reg, pool.workers`health
      ensures Valid() && pool.reg == Probed(old(pool.reg), ProbeResult(id, health))
      ensures pool.reg.Keys == old(pool.reg).Keys
      ensures forall other :: other in pool.reg ==>
        && pool.reg[other].disabled == old(pool.reg)[other].disabled
        && pool.reg[other].health ==
             if other == id && old(pool.reg)[id].health != Health.Dead && health != Health.Dead then health
             else old(pool.reg)[other].health
    {
      var w := pool.Find(id);
      if w != null && w.health != Health.Dead && health != Health.Dead {
        pool.SetHealth(w, health);
      }
    }

    /** Fail closed at start-up: journaled targets, or the whole pool if the journal is unreadable. */
    method RecoverFromJournal()
      requires Valid()
      modifies pool`reg, pool.workers
      ensures Valid()
      ensures pool.reg == Recover(old(pool.reg), journal.State().visible)
      ensures pool.reg.Keys == old(pool.reg).Keys
      ensures forall id :: id in pool.reg ==>
        && pool.reg[id].health == old(pool.reg)[id].health
        && (pool.reg[id].disabled <==> old(pool.reg)[id].disabled || journal.State().visible.Blocks(id))
    {
      RecoverDisables(pool.reg, journal.State().visible);
      var pending := journal.Pending();
      if pending.None? {
        pool.DisableWorkers(pool.workers);
      } else {
        pool.DisableIds(pending.value);
      }
    }

    /** The workers an update goes to: all that are not dead, healthy or not. */
    method LiveWorkers() returns (targets: seq<Worker>)
      requires Valid()
      ensures forall w :: w in targets <==> w in pool.workers && w.health != Health.Dead
      ensures Urls(targets) == LiveIds(pool.reg)
      ensures targets == [] <==> LiveIds(pool.reg) == {}
      ensures |targets| > 1 <==> exists id, other :: id in LiveIds(pool.reg) && other in LiveIds(pool.reg) && id != other
    {
      targets := [];
      for i := 0 to |pool.workers|
        invariant forall w :: w in targets <==> w in pool.workers[..i] && w.health != Health.Dead
        invariant forall j, k :: 0 <= j < k < |targets| ==> targets[j].url != targets[k].url
      {
        assert forall w :: w in targets ==> w.url != pool.workers[i].url;
        if pool.workers[i].health != Health.Dead {
          targets := targets + [pool.workers[i]];
        }
      }
      assert pool.workers[..|pool.workers|] == pool.workers;
      pool.LiveUrls(targets);
    }

    /**
     An update request once it holds the lock. An unresolved earlier update refuses it, and so do a pool
     with nobody alive and a group update over several workers; otherwise the locked broadcast goes to
     exactly the live workers.
     */
    method BroadcastUpdate(
        path: string, firstOk: bool, events: seq<Event>, ack: AckOutcome, results: Results, lastOk: bool)
      returns (reply: BroadcastReply)
      requires Valid()
      modifies pool.workers, pool`reg, this`published, journal.disk
      ensures Valid()
      ensures reply.EarlierPending? <==> old(journal.State().visible.HasPending())
      ensures reply.NoLiveWorkers? <==>
        && !old(journal.State().visible.HasPending())
        && forall id :: id in old(pool.reg) ==> old(pool.reg)[id].health == Health.Dead
      ensures reply.SingleReplicaOnly? <==>
        && !old(journal.State().visible.HasPending()) && path == INIT_GROUP
        && exists id, other :: id in LiveIds(old(pool.reg)) && other in LiveIds(old(pool.reg)) && id != other
      ensures reply.EarlierPending? || reply.NoLiveWorkers? || reply.SingleReplicaOnly? ==>
        && pool.reg == old(pool.reg) && published == old(published) && journal.State() == old(journal.State())
        && journal.disk.faults == old(journal.disk.faults)
      ensures reply.Refused? ==> old(journal.disk.faults) < journal.disk.faults && pool.reg == old(pool.reg)
      ensures reply.NotSent? ==> !firstOk && pool.reg == DisableAll(old(pool.reg), LiveIds(old(pool.reg)))
      ensures reply.Finished? ==>
        && firstOk && pool.reg == if reply.safe then ProbedAll(old(pool.reg), events)
                                  else DisableAll(ProbedAll(old(pool.reg), events), LiveIds(old(pool.reg)))
      ensures reply.NotSent? || (reply.Finished? && !reply.safe) ==> journal.State() == Journaled(LiveIds(old(pool.reg)))
      ensures reply.Finished? && reply.safe && journal.disk.faults == old(journal.disk.faults) ==>
        journal.State() == JournalState(Absent, {Absent})
    {
      hide WorkerPool.Valid, Disk.Valid, Disk.State, DisableAll, ProbedAll, PublishedShut;
      var pending := journal.HasPending();
      if pending {
        return EarlierPending;
      }
      var targets := LiveWorkers();
      assert LiveIds(pool.reg) != {} <== exists id :: id in LiveIds(pool.reg);
      assert forall id :: id in pool.reg ==> (id in LiveIds(pool.reg) <==> pool.reg[id].health != Health.Dead);
      if targets == [] {
        return NoLiveWorkers;
      }
      if path == INIT_GROUP && |targets| > 1 {
        return SingleReplicaOnly;
      }
      reply := BroadcastLocked(path, targets, firstOk, events, ack, results, lastOk);
    }

    /**
     The whole locked broadcast. The barrier's and the workers' answers, what happens on the event loop
     while they are awaited, and whether publishing succeeds are inputs. Either the disk failed, and it is
     refused with registry and publications unchanged and the journal as a failed write may leave it; or the
     disabled registry could not be published, and nothing was sent; or the outcome is known to be safe and
     every flag is the one found; or every target ends disabled and guarded by the journal at any crash.
     Everything published in between has every target disabled and durably journaled, and the outcome is
     published after it was recorded. On a disk that does not fail, it runs and is recorded.
     */
    method BroadcastLocked(
        path: string, targets: seq<Worker>, firstOk: bool, events: seq<Event>, ack: AckOutcome, results: Results,
        lastOk: bool)
      returns (reply: BroadcastReply)
      requires Valid() && targets != []
      requires forall i :: 0 <= i < |targets| ==> targets[i] in pool.workers
      modifies pool.workers, pool`reg, this`published, journal.disk
      ensures Valid()
      ensures reply.Refused? || reply.NotSent? || reply.Finished?
      ensures old(journal.disk.faults) <= journal.disk.faults
      ensures journal.disk.faults == old(journal.disk.faults) ==> (reply.NotSent? <==> !firstOk) && !reply.Refused?
      ensures reply.NotSent? ==> journal.disk.faults == old(journal.disk.faults)
      ensures reply.Finished? ==> (reply.journaled <==> journal.disk.faults == old(journal.disk.faults))
      ensures reply.Refused? ==>
        && pool.reg == old(pool.reg) && published == old(published)
        && JournalWrite(old(journal.State()), journal.State(), Entry(Urls(targets)), false)
      ensures reply.NotSent? ==>
        && !firstOk && pool.reg == DisableAll(old(pool.reg), Urls(targets)) && published == old(published)
        && journal.State() == Journaled(Urls(targets))
      ensures reply.Finished? ==>
        && firstOk && reply.published == lastOk
        && (reply.safe <==> ack.TimedOut? || (ack.Acked? && results.Some? && false !in results.value))
        && (lastOk ==> published != [] && published[|published| - 1] == Current())
        && PublishedShut(old(published), if lastOk then published[..|published| - 1] else published,
                         DisableAll(old(pool.reg), Urls(targets)), Urls(targets))
      ensures reply.Finished? && reply.safe ==>
        && pool.reg == ProbedAll(old(pool.reg), events)
        && JournalWrite(Journaled(Urls(targets)), journal.State(), Absent, reply.journaled)
      ensures reply.Finished? && !reply.safe ==>
        && pool.reg == DisableAll(ProbedAll(old(pool.reg), events), Urls(targets))
        && journal.State() == Journaled(Urls(targets)) && journal.State().Guards(Urls(targets))
    {
      hide DisableAll, PreviousDisabled, WorkerPool.Valid, Disk.Valid, Disk.State, ProbedAll, PublishedShut, SameFlags;
      var previous := pool.RememberDisabled(targets);
      var started := Start(path, targets, firstOk);
      if started != Started {
        return if started == NotJournaled then Refused else NotSent;
      }
      ghost var shut, first := pool.reg, published;
      Await(events);
      StillShut(old(published), first, published, shut, Urls(targets));
      var outcome: Results :=
        if ack.TimedOut? then Some([]) else if ack.BarrierCancelled? then None else results;
      var safe := outcome.Some? && false !in outcome.value;
      ghost var upto := published;
      var journaled := Settle(targets, previous, safe, lastOk, events, old(pool.reg));
      assert (if lastOk then published[..|published| - 1] else published) == upto;
      return Finished(safe, journaled, lastOk);
    }

    /** Journal, disable, publish: up to the moment the barrier is awaited. */
    method Start(path: string, targets: seq<Worker>, ok: bool) returns (r: StartResult)
      requires Valid() && targets != []
      requires forall i :: 0 <= i < |targets| ==> targets[i] in pool.workers
      modifies targets, pool`reg, this`published, journal.disk
      ensures Valid()
      ensures SucceedsUnlessFaulty(journal.disk, r != NotJournaled)
      ensures r == NotJournaled ==>
        && pool.reg == old(pool.reg) && published == old(published)
        && JournalWrite(old(journal.State()), journal.State(), Entry(Urls(targets)), false)
      ensures r != NotJournaled ==>
        && (r == Started <==> ok)
        && pool.reg == DisableAll(old(pool.reg), Urls(targets)) && journal.State() == Journaled(Urls(targets))
        && published == old(published) + if ok then [Current()] else []
      ensures r == Started ==> PublishedShut(old(published), published, pool.reg, Urls(targets)) && Urls(targets) != {}
    {
      hide DisableAll, WorkerPool.Valid, Disk.Valid, Disk.State;
      assert targets[0].url in Urls(targets);
      var begun := journal.Begin(path, Urls(targets));
      if !begun {
        return NotJournaled;
      }
      pool.DisableWorkers(targets);
      Publish(ok);
      return if ok then Started else NotPublishedShut;
    }

    /** Restore the flags or fail closed, resolve the journal, publish: in that order. */
    method Settle(
        targets: seq<Worker>, previous: map<WorkerId, bool>, safe: bool, ok: bool, ghost events: seq<Event>,
        ghost found: Registry)
      returns (journaled: bool)
      requires Valid() && Urls(targets) != {} && previous.Keys == Urls(targets)
      requires forall i :: 0 <= i < |targets| ==> targets[i] in pool.workers
      requires pool.reg == ProbedAll(DisableAll(found, Urls(targets)), events)
      requires previous == PreviousDisabled(found, Urls(targets))
      requires journal.State() == Journaled(Urls(targets))
      modifies targets, pool`reg, this`published, journal.disk
      ensures Valid()
      ensures published == old(published) + if ok then [Current()] else []
      ensures safe ==>
        && pool.reg == ProbedAll(found, events)
        && JournalWrite(old(journal.State()), journal.State(), Absent, journaled)
      ensures !safe ==>
        && pool.reg == DisableAll(ProbedAll(found, events), Urls(targets))
        && journal.State() == Journaled(Urls(targets)) && journal.State().Guards(Urls(targets))
      ensures SucceedsUnlessFaulty(journal.disk, journaled)
    {
      hide DisableAll, PreviousDisabled, RestoreFlags, WorkerPool.Valid, Disk.Valid, Disk.State, ProbedAll;
      RestoreAfterProbes(found, Urls(targets), events);
      pool.RestoreDisabledState(targets, previous, safe);
      journaled := ResolveJournal(Urls(targets), safe);
      Publish(ok);
    }

    /** The outcome is recorded before it is published, so a crash in between still fails closed. */
    method ResolveJournal(ids: set<WorkerId>, safe: bool) returns (ok: bool)
      requires Valid() && ids != {}
      requires journal.State() == Journaled(ids)
      modifies journal.disk
      ensures Valid()
      ensures safe ==> JournalWrite(old(journal.State()), journal.State(), Absent, ok)
      ensures !safe ==> journal.State() == Journaled(ids) && journal.State().Guards(ids)
      ensures SucceedsUnlessFaulty(journal.disk, ok)
    {
      if safe {
        ok := journal.Clear();
      } else {
        ok := journal.Keep(ids);
      }
    }

    /** A worker whose id is still journaled is registered disabled, whatever its probe said. */
    method Create(w: Worker, ok: bool) returns (reply: EditReply)
      requires Valid() && !w.disabled && w !in pool.workers
      modifies this`published, pool, w`disabled
      ensures Valid()
      ensures w.url in old(pool.reg) ==>
        reply == AlreadyRegistered && pool.reg == old(pool.reg) && published == old(published)
      ensures w.url !in old(pool.reg) ==>
        && reply == (if ok then Done else NotPublished) && pool.workers == old(pool.workers) + [w]
        && pool.reg == old(pool.reg)[w.url := Row(w.health, journal.State().visible.Blocks(w.url))]
        && published == old(published) + if ok then [Current()] else []
    {
      var existing := pool.Find(w.url);
      if existing != null {
        return AlreadyRegistered;
      }
      var pending := journal.Pending();
      if pending.None? || w.url in pending.value {
        w.SetDisabled(true);
      }
      pool.Append(w);
      Publish(ok);
      return if ok then Done else NotPublished;
    }

    /** The assigned voice owner cannot be deleted; nothing changes then. */
    method Delete(id: WorkerId, isOwner: bool, ok: bool) returns (reply: EditReply)
      requires Valid()
      modifies this`published, pool
      ensures Valid()
      ensures reply == if id !in old(pool.reg) then NotFound
                       else if isOwner then OwnerConflict else if ok then Done else NotPublished
      ensures pool.reg == if reply.Done? || reply.NotPublished? then old(pool.reg) - {id} else old(pool.reg)
      ensures published == old(published) + if reply.Done? then [Current()] else []
    {
      var w := pool.Find(id);
      if w == null {
        return NotFound;
      }
      if isOwner {
        return OwnerConflict;
      }
      var removed := pool.Remove(id);
      Publish(ok);
      return if ok then Done else NotPublished;
    }

    /** Whether the worker could own uploaded voices after the change. */
    ghost predicate StaysFit(id: WorkerId, change: Change)
      reads pool, pool.workers`config
    {
      forall w :: w in pool.workers && w.url == id ==>
        VOICE_OWNER_CAPABILITIES <= (if change.config.Some? then change.config.value else w.config).capabilities
    }

    /**
     A PUT of configuration, `disabled` and `is_dead`. Re-enabling discards the journal entry first;
     only then is the voice-owner rule checked. `isOwner` says whether this worker is the assigned owner.
     */
    method Update(id: WorkerId, change: Change, isOwner: bool, ok: bool) returns (reply: EditReply)
      requires Valid()
      modifies this`published, pool`reg, pool.workers, journal.disk
      ensures Valid() && pool.workers == old(pool.workers) && !reply.AlreadyRegistered?
      ensures reply.NotFound? <==> id !in old(pool.reg)
      ensures reply.Invalid? <==>
        id in old(pool.reg) && change.config.Some? && change.config.value.capabilities == {}
      ensures !reply.Done? && !reply.NotPublished? ==>
        && pool.reg == old(pool.reg)
        && forall w :: w in pool.workers ==> w.config == old(w.config)
      ensures published == old(published) + if reply.Done? then [Current()] else []
      ensures reply.NotFound? || reply.Invalid? || change.disabled != Some(false) ==> journal.State() == old(journal.State())
      ensures reply.NotDurable? <==>
        && id in old(pool.reg) && !reply.Invalid? && change.disabled == Some(false)
        && (old(journal.State()).visible.Unreadable? || journal.disk.faults != old(journal.disk.faults))
      ensures reply.NotDurable? && journal.State() != old(journal.State()) ==>
        && !old(journal.State()).visible.Unreadable?
        && JournalWrite(old(journal.State()), journal.State(), WithoutId(old(journal.State()).visible, id), false)
      ensures (reply.Done? || reply.NotPublished? || reply.OwnerConflict?) && change.disabled == Some(false) ==>
        && !old(journal.State()).visible.Unreadable?
        && var left := WithoutId(old(journal.State()).visible, id);
           && journal.State() == JournalState(left, {left})
           && (journal.State() == old(journal.State()) <==> NothingToDiscard(old(journal.State()), id))
      ensures reply.OwnerConflict? ==> isOwner && !StaysFit(id, change)
      ensures reply.Done? || reply.NotPublished? ==> isOwner ==> old(StaysFit(id, change))
      ensures reply.Done? || reply.NotPublished? ==>
        && (reply.Done? <==> ok) && id in old(pool.reg)
        && pool.reg == old(pool.reg)[id := Changed(old(pool.reg)[id], change)]
        && Obeys(old(pool.reg)[id], change, pool.reg[id])
        && forall w :: w in pool.workers ==>
             w.config == if w.url == id && change.config.Some? then change.config.value else old(w.config)
    {
      hide WorkerPool.Valid, Disk.Valid, Disk.State;
      var w := pool.Find(id);
      if w == null {
        return NotFound;
      }
      if change.config.Some? && change.config.value.capabilities == {} {
        return Invalid;
      }
      var next := if change.config.Some? then change.config.value else w.config;
      assert forall x :: x in pool.workers && x.url == id ==> x == w by { pool.OneOfEach(w); }
      if change.disabled == Some(false) {
        var discarded := journal.Discard(id);
        if !discarded {
          return NotDurable;
        }
        RejectedPutKeepsJournal(old(journal.State()), id);
      }
      if isOwner && !(VOICE_OWNER_CAPABILITIES <= next.capabilities) {
        return OwnerConflict;
      }
      pool.Rewrite(w, next, change);
      Publish(ok);
      return if ok then Done else NotPublished;
    }
  }

  /**
   "A rejected PUT changes nothing" is false: a PUT that re-enables a journaled worker has already
   dropped its entry when the owner rule rejects it. It leaves the journal as it was exactly when
   the entry was already durably resolved for this id.
   */
  lemma RejectedPutKeepsJournal(before: JournalState, id: WorkerId)
    requires !before.visible.Unreadable?
    ensures var left := WithoutId(before.visible, id);
      JournalState(left, {left}) == before <==> NothingToDiscard(before, id)
  {
    if before.visible.Entry? && id !in before.visible.ids {
      assert before.visible.ids - {id} == before.visible.ids;
    }
  }

  /** The family in one instance: a rejected request that loses the only journal entry. */
  method RejectedPutLosesEntry(app: ControlPlaneApp, id: WorkerId) returns (reply: EditReply)
    requires app.Valid() && id in app.pool.reg && app.journal.State() == Journaled({id})
    modifies app`published, app.pool`reg, app.pool.workers, app.journal.disk
    ensures app.pool.reg == old(app.pool.reg)
    ensures reply.NotDurable? || reply.OwnerConflict?
    ensures reply.OwnerConflict? ==>
      app.journal.State() == JournalState(Absent, {Absent}) && !app.journal.State().Guards({id})
  {
    var change := Change(Some(Config(None, {"chat"})), Some(false), None);
    assert !app.StaysFit(id, change) by {
      var w :| w in app.pool.workers && w.url == id;
      assert "speech" in VOICE_OWNER_CAPABILITIES && "speech" !in change.config.value.capabilities;
    }
    reply := app.Update(id, change, true, true);
    assert WithoutId(Entry({id}), id) == Absent;
    assert !Absent.Blocks(id) && Absent in {Absent} && id in {id};
  }
}
