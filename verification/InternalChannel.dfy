/**
 The control plane's side of the internal channel: one record per data-plane index, with
 generation fencing. The functions say what one message does; the class keeps the table.
 */
module InternalChannel {
  import opened RouterTypes

  /** `seqno` is an acknowledgement only together with the epoch it was counted in. */
  datatype Record = Record(generation: nat, pid: nat, epoch: nat, seqno: nat, serving: bool)

  datatype Message =
    | Hello(index: nat, generation: nat, pid: nat)
    | Beat(index: nat, generation: nat, pid: nat, epoch: nat, seqno: nat, serving: bool)

  /** 200, 409 (fenced) and 428 (register again). */
  datatype Reply = Accepted | StaleGeneration | UnknownDataPlane

  type Records = map<nat, Record>

  function OnHello(records: Records, m: Message): (Records, Reply)
    requires m.Hello?
  {
    if m.index !in records then
      (records[m.index := Record(m.generation, m.pid, 0, 0, true)], Accepted)
    else
      var current := records[m.index];
      if m.generation < current.generation then (records, StaleGeneration)
      else if m.generation == current.generation && m.pid != current.pid then (records, StaleGeneration)
      else if m.generation == current.generation then
        (records[m.index := Record(m.generation, m.pid, current.epoch, current.seqno, current.serving)], Accepted)
      else
        (records[m.index := Record(m.generation, m.pid, 0, 0, true)], Accepted)
  }

  function OnBeat(records: Records, m: Message): (Records, Reply)
    requires m.Beat?
  {
    if m.index !in records || m.generation > records[m.index].generation then (records, UnknownDataPlane)
    else
      var current := records[m.index];
      if m.generation < current.generation || m.pid != current.pid then (records, StaleGeneration)
      else
        var applied :=
          if m.epoch == current.epoch && current.seqno > m.seqno then current.seqno else m.seqno;
        (records[m.index := Record(m.generation, m.pid, m.epoch, applied, m.serving)], Accepted)
  }

  function OnMessage(records: Records, m: Message): (Records, Reply) {
    if m.Hello? then OnHello(records, m) else OnBeat(records, m)
  }

  function OnMessages(records: Records, ms: seq<Message>): Records
    decreases |ms|
  {
    if ms == [] then records else OnMessages(OnMessage(records, ms[0]).0, ms[1..])
  }

  /** One message changes nobody else's record and never lowers a generation; older generations change nothing. */
  lemma MessageFenced(records: Records, m: Message, index: nat)
    requires index in records
    ensures var after := OnMessage(records, m).0;
      && index in after
      && records[index].generation <= after[index].generation
      && (m.index != index || m.generation < records[index].generation ==> after[index] == records[index])
      && (after[index].generation == records[index].generation ==> after[index].pid == records[index].pid)
  {
  }

  /** The process that sent `m` is the one registered under its index. */
  predicate FromRegistered(records: Records, m: Message) {
    && m.index in records
    && m.generation == records[m.index].generation && m.pid == records[m.index].pid
  }

  /** Whom the supervisor has replaced: an older generation, or another process of the same one. */
  predicate Fenced(records: Records, m: Message) {
    && m.index in records
    && (m.generation < records[m.index].generation ||
        (m.generation == records[m.index].generation && m.pid != records[m.index].pid))
  }

  /**
   A heartbeat is taken if and only if the registered process sent it. It then stands in the table with its
   epoch and readiness, and with at least its number: inside one epoch the larger of the two, in another
   epoch its own. A fenced process is told so, any other one to register; neither changes anything.
   */
  lemma BeatIsTaken(records: Records, m: Message)
    requires m.Beat?
    ensures var (after, reply) := OnBeat(records, m);
      && (reply == Accepted <==> FromRegistered(records, m))
      && (reply == StaleGeneration <==> Fenced(records, m))
      && (reply == UnknownDataPlane <==> m.index !in records || m.generation > records[m.index].generation)
      && (reply != Accepted ==> after == records)
      && (reply == Accepted ==>
            && after.Keys == records.Keys && after - {m.index} == records - {m.index}
            && var was, now := records[m.index], after[m.index];
               && now.generation == m.generation && now.pid == m.pid && now.epoch == m.epoch && now.serving == m.serving
               && m.seqno <= now.seqno
               && (m.epoch == was.epoch ==> was.seqno <= now.seqno && now.seqno in {was.seqno, m.seqno})
               && (m.epoch != was.epoch ==> now.seqno == m.seqno))
  {
  }

  /**
   A registration is taken unless the process is fenced. Registering again changes nothing; a new process
   begins with no acknowledgement at all.
   */
  lemma HelloIsTaken(records: Records, m: Message)
    requires m.Hello?
    ensures var (after, reply) := OnHello(records, m);
      && (reply == StaleGeneration <==> Fenced(records, m)) && reply != UnknownDataPlane
      && (reply != Accepted || FromRegistered(records, m) ==> after == records)
      && (reply == Accepted ==>
            && FromRegistered(after, m) && after - {m.index} == records - {m.index}
            && (!FromRegistered(records, m) ==> after[m.index] == Record(m.generation, m.pid, 0, 0, true)))
  {
  }

  /**
   Over any stream of messages, replayed and reordered at will, a record's generation only
   grows; while it stays the same so does the process, and inside one epoch the acknowledged
   sequence number never goes back.
   */
  lemma {:induction false} RecordsFenced(records: Records, ms: seq<Message>, index: nat)
    requires index in records
    ensures var after := OnMessages(records, ms);
      && index in after
      && records[index].generation <= after[index].generation
      && (after[index].generation == records[index].generation ==> after[index].pid == records[index].pid)
      && ((forall m :: m in ms ==> m.index != index || m.generation < records[index].generation) ==>
            after[index] == records[index])
    decreases |ms|
  {
    if ms != [] {
      MessageFenced(records, ms[0], index);
      RecordsFenced(OnMessage(records, ms[0]).0, ms[1..], index);
    }
  }

  /** Messages of one process that all speak of one epoch can only move its acknowledgement forward. */
  lemma {:induction false} AckNeverRegresses(records: Records, ms: seq<Message>, index: nat)
    requires index in records
    requires forall m :: m in ms && m.index == index ==>
      m.generation <= records[index].generation && (m.Beat? ==> m.epoch == records[index].epoch)
    ensures index in OnMessages(records, ms)
    ensures OnMessages(records, ms)[index].epoch == records[index].epoch
    ensures records[index].seqno <= OnMessages(records, ms)[index].seqno
    decreases |ms|
  {
    if ms != [] {
      var next := OnMessage(records, ms[0]).0;
      assert ms[0] in ms;
      MessageFenced(records, ms[0], index);
      assert next[index].epoch == records[index].epoch && records[index].seqno <= next[index].seqno;
      assert next[index].generation == records[index].generation;
      AckNeverRegresses(next, ms[1..], index);
    }
  }

  class InternalChannelState {
    var dataPlanes: Records

    constructor ()
      ensures dataPlanes == map[]
    {
      dataPlanes := map[];
    }

    method Register(hello: Message) returns (reply: Reply)
      requires hello.Hello?
      modifies this
      ensures (dataPlanes, reply) == OnHello(old(dataPlanes), hello)
    {
      var seqno, epoch, serving := 0, 0, true;
      if hello.index in dataPlanes {
        var current := dataPlanes[hello.index];
        if hello.generation < current.generation {
          return StaleGeneration;
        }
        if hello.generation == current.generation && hello.pid != current.pid {
          return StaleGeneration;
        }
        if hello.generation == current.generation && hello.pid == current.pid {
          seqno, epoch, serving := current.seqno, current.epoch, current.serving;
        }
      }
      dataPlanes := dataPlanes[hello.index := Record(hello.generation, hello.pid, epoch, seqno, serving)];
      return Accepted;
    }

    method Heartbeat(beat: Message) returns (reply: Reply)
      requires beat.Beat?
      modifies this
      ensures (dataPlanes, reply) == OnBeat(old(dataPlanes), beat)
    {
      if beat.index !in dataPlanes || beat.generation > dataPlanes[beat.index].generation {
        return UnknownDataPlane;
      }
      var current := dataPlanes[beat.index];
      if beat.generation < current.generation || beat.pid != current.pid {
        return StaleGeneration;
      }
      var applied := beat.seqno;
      if beat.epoch == current.epoch {
        applied := if current.seqno > beat.seqno then current.seqno else beat.seqno;
      }
      dataPlanes := dataPlanes[beat.index := Record(beat.generation, beat.pid, beat.epoch, applied, beat.serving)];
      return Accepted;
    }
  }

  // ---------------------------------------------------------------- the acknowledgement barrier

  /** What one poll of the barrier sees: the table, which indices were heard from lately, whether time is up. */
  datatype Poll = Poll(records: Records, live: set<nat>, expired: bool)

  /** `index` still holds the barrier: unheard of, or its acknowledgement is not for this snapshot. */
  predicate Pending(poll: Poll, expected: nat, epoch: nat, target: nat, index: nat) {
    if index in poll.records && index in poll.live then
      poll.records[index].epoch != epoch || poll.records[index].seqno < target
    else
      index < expected
  }

  /** Every expected data plane, and every other live one, acknowledged snapshot (`epoch`, `target`). */
  predicate Acknowledged(poll: Poll, expected: nat, epoch: nat, target: nat) {
    && (forall i: nat :: i < expected ==> i in poll.records && i in poll.live)
    && (forall i :: i in poll.records && i in poll.live ==>
          poll.records[i].epoch == epoch && poll.records[i].seqno >= target)
  }

  lemma AcknowledgedWhenNonePending(poll: Poll, expected: nat, epoch: nat, target: nat)
    requires forall i :: !Pending(poll, expected, epoch, target, i)
    ensures Acknowledged(poll, expected, epoch, target)
  {
    forall i: nat | i < expected ensures i in poll.records && i in poll.live {
      assert !Pending(poll, expected, epoch, target, i);
    }
    forall i | i in poll.records && i in poll.live
      ensures poll.records[i].epoch == epoch && poll.records[i].seqno >= target
    {
      assert !Pending(poll, expected, epoch, target, i);
    }
  }

  /**
   The polling loop. `polls` is what the barrier would observe at each wake-up; its last poll is
   past the deadline. It reports success exactly when some poll up to the first expired one finds
   everybody acknowledged, and a failure names exactly the indices still pending at that poll.
   */
  method AckBarrier(polls: seq<Poll>, expected: nat, epoch: nat, target: nat)
    returns (acked: bool, pending: set<nat>, used: nat)
    requires polls != [] && polls[|polls| - 1].expired
    ensures used < |polls|
    ensures acked <==> Acknowledged(polls[used], expected, epoch, target)
    ensures forall i :: i in pending <==> Pending(polls[used], expected, epoch, target, i)
    ensures acked <==> pending == {}
    ensures !acked ==> polls[used].expired
    ensures forall k :: 0 <= k < used ==>
      !polls[k].expired && !Acknowledged(polls[k], expected, epoch, target)
  {
    used := 0;
    while true
      invariant used < |polls|
      invariant forall k :: 0 <= k < used ==>
        !polls[k].expired && !Acknowledged(polls[k], expected, epoch, target)
      decreases |polls| - used
    {
      var poll := polls[used];
      pending := set i | i in poll.records && i in poll.live
                         && (poll.records[i].epoch != epoch || poll.records[i].seqno < target);
      pending := pending + set i: nat | i < expected && (i !in poll.records || i !in poll.live);
      assert forall i :: i in pending <==> Pending(poll, expected, epoch, target, i);
      if pending == {} {
        assert forall i :: !Pending(poll, expected, epoch, target, i);
        AcknowledgedWhenNonePending(poll, expected, epoch, target);
        return true, pending, used;
      }
      assert !Acknowledged(poll, expected, epoch, target) by {
        var i :| i in pending;
        assert Pending(poll, expected, epoch, target, i);
      }
      if poll.expired {
        return false, pending, used;
      }
      used := used + 1;
    }
  }
}
