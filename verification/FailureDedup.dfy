/**
 Failure events reach the control plane in any order and any number of times. Each (data plane,
 generation) has its own record of event numbers already applied, pruned behind a floor.
 */
module FailureDedup {

  const MAX_KEPT := 4096
  const KEPT_BEHIND := 1024

  /** Event numbers at or below the floor count as applied; above it they are remembered one by one. */
  datatype Dedup = Dedup(seqs: set<nat>, floor: nat)

  const FIRST := Dedup({}, 0)

  ghost predicate IsMax(s: set<nat>, m: nat) {
    m in s && forall x :: x in s ==> x <= m
  }

  lemma {:induction false} MaxExists(s: set<nat>)
    requires s != {}
    ensures exists m :: IsMax(s, m)
  {
    var x :| x in s;
    if s == {x} {
      assert IsMax(s, x);
    } else {
      MaxExists(s - {x});
      var m :| IsMax(s - {x}, m);
      assert forall y :: y in s ==> y == x || y in s - {x};
      assert IsMax(s, if x > m then x else m);
    }
  }

  ghost function MaxOf(s: set<nat>): (m: nat)
    requires s != {}
    ensures IsMax(s, m)
  {
    MaxExists(s);
    var m :| IsMax(s, m);
    m
  }

  /** Numbers above `low` and up to `high` are no more than `high - low` of them. */
  lemma {:induction false} AtMostSoMany(s: set<nat>, low: nat, high: nat)
    requires low <= high && forall x :: x in s ==> low < x <= high
    ensures |s| <= high - low
    decreases high - low
  {
    if low < high {
      AtMostSoMany(s - {high}, low, high - 1);
    } else {
      assert s == {};
    }
  }

  ghost predicate Valid(d: Dedup) {
    |d.seqs| <= MAX_KEPT && forall x :: x in d.seqs ==> x > d.floor
  }

  predicate Known(d: Dedup, event: nat) {
    event <= d.floor || event in d.seqs
  }

  ghost function Pruned(seqs: set<nat>, floor: nat): Dedup
    requires seqs != {}
  {
    var max := MaxOf(seqs);
    if |seqs| > MAX_KEPT && max >= KEPT_BEHIND
    then Dedup((set x | x in seqs && x > max - KEPT_BEHIND), max - KEPT_BEHIND)
    else Dedup(seqs, floor)
  }

  /** What one delivery does to the record. */
  ghost function Delivered(d: Dedup, event: nat): Dedup {
    if Known(d, event) then d else Pruned(d.seqs + {event}, d.floor)
  }

  lemma DeliveredValid(d: Dedup, event: nat)
    requires Valid(d)
    ensures Valid(Delivered(d, event)) && d.floor <= Delivered(d, event).floor
    ensures forall x: nat :: Known(d, x) || x == event ==> Known(Delivered(d, event), x)
    ensures forall x: nat :: Known(Delivered(d, event), x) && !Known(d, x) && x != event ==>
      exists m :: m in d.seqs + {event} && x + KEPT_BEHIND <= m
  {
    var t := Delivered(d, event);
    if !Known(d, event) && |d.seqs + {event}| > MAX_KEPT {
      var max := MaxOf(d.seqs + {event});
      AtMostSoMany(d.seqs + {event}, d.floor, max);
      assert t.floor == max - KEPT_BEHIND;
      AtMostSoMany(t.seqs, t.floor, max);
      assert max in d.seqs + {event};
    }
  }

  // ---------------------------------------------------------------- over any deliveries

  ghost function After(events: seq<nat>): Dedup {
    if events == [] then FIRST else Delivered(After(events[..|events| - 1]), events[|events| - 1])
  }

  /** The `k`-th delivery is acted on. */
  ghost predicate Applied(events: seq<nat>, k: nat)
    requires k < |events|
  {
    !Known(After(events[..k]), events[k])
  }

  lemma {:induction false} AfterValid(events: seq<nat>)
    ensures Valid(After(events))
  {
    if events != [] {
      AfterValid(events[..|events| - 1]);
      DeliveredValid(After(events[..|events| - 1]), events[|events| - 1]);
    }
  }

  lemma AfterNext(events: seq<nat>, k: nat)
    requires k < |events|
    ensures Valid(After(events[..k]))
    ensures After(events[..k + 1]) == Delivered(After(events[..k]), events[k])
  {
    AfterValid(events[..k]);
    assert events[..k + 1][..k] == events[..k];
  }

  /** The floor never moves back, and what is known stays known. */
  lemma {:induction false} NeverForgets(events: seq<nat>, a: nat, b: nat, event: nat)
    requires a <= b <= |events|
    ensures After(events[..a]).floor <= After(events[..b]).floor
    ensures Known(After(events[..a]), event) ==> Known(After(events[..b]), event)
  {
    if a < b {
      NeverForgets(events, a, b - 1, event);
      AfterNext(events, b - 1);
      DeliveredValid(After(events[..b - 1]), events[b - 1]);
    }
  }

  /** No event is acted on twice, however often and however late it is delivered again. */
  lemma AppliedAtMostOnce(events: seq<nat>, a: nat, b: nat)
    requires a < b < |events| && events[a] == events[b] && Applied(events, a)
    ensures !Applied(events, b)
  {
    AfterNext(events, a);
    DeliveredValid(After(events[..a]), events[a]);
    NeverForgets(events, a + 1, b, events[b]);
  }

  /** The memory stays bounded after every delivery. */
  lemma KeptIsBounded(events: seq<nat>)
    ensures |After(events).seqs| <= MAX_KEPT
  {
    AfterValid(events);
  }

  /** Every number the record remembers was delivered. */
  lemma {:induction false} RememberedWereDelivered(events: seq<nat>, k: nat, event: nat)
    requires k <= |events| && event in After(events[..k]).seqs
    ensures exists i :: 0 <= i < k && events[i] == event
  {
    if k > 0 {
      AfterNext(events, k - 1);
      if event in After(events[..k - 1]).seqs {
        RememberedWereDelivered(events, k - 1, event);
      } else {
        assert events[k - 1] == event;
      }
    }
  }

  lemma {:induction false} KnownBecause(events: seq<nat>, k: nat, event: nat)
    requires k <= |events| && event > 0 && Known(After(events[..k]), event)
    ensures (exists i :: 0 <= i < k && events[i] == event) || (exists i :: 0 <= i < k && event + KEPT_BEHIND <= events[i])
  {
    if k > 0 {
      AfterNext(events, k - 1);
      var d := After(events[..k - 1]);
      DeliveredValid(d, events[k - 1]);
      if Known(d, event) {
        KnownBecause(events, k - 1, event);
      } else if event != events[k - 1] {
        var m :| m in d.seqs + {events[k - 1]} && event + KEPT_BEHIND <= m;
        if m != events[k - 1] {
          RememberedWereDelivered(events, k - 1, m);
        }
      }
    }
  }

  /** Events are numbered from 1. One is dropped without ever having been delivered only 1024 or more behind. */
  lemma DroppedOnlyFarBehind(events: seq<nat>, k: nat)
    requires k < |events| && events[k] > 0 && !Applied(events, k)
    ensures
      || (exists i :: 0 <= i < k && events[i] == events[k])
      || (exists i :: 0 <= i < k && events[k] + KEPT_BEHIND <= events[i])
  {
    KnownBecause(events, k, events[k]);
  }

  /** And never before more than 4096 different numbers were delivered. */
  lemma {:induction false} NothingDroppedEarly(events: seq<nat>, k: nat)
    requires k <= |events| && After(events[..k]).floor > 0
    ensures |DeliveredBefore(events, k)| > MAX_KEPT
  {
    AfterNext(events, k - 1);
    var d, event := After(events[..k - 1]), events[k - 1];
    DeliveredGrows(events, k - 1);
    if d.floor > 0 {
      NothingDroppedEarly(events, k - 1);
    } else {
      forall x | x in d.seqs ensures x in DeliveredBefore(events, k - 1) {
        RememberedWereDelivered(events, k - 1, x);
      }
      SubsetSize(d.seqs + {event}, DeliveredBefore(events, k));
    }
  }

  function DeliveredBefore(events: seq<nat>, k: nat): set<nat>
    requires k <= |events|
  {
    set i | 0 <= i < k :: events[i]
  }

  lemma DeliveredGrows(events: seq<nat>, k: nat)
    requires k < |events|
    ensures DeliveredBefore(events, k + 1) == DeliveredBefore(events, k) + {events[k]}
    ensures |DeliveredBefore(events, k)| <= |DeliveredBefore(events, k + 1)|
  {
    assert DeliveredBefore(events, k + 1) == DeliveredBefore(events, k) + {events[k]};
    SubsetSize(DeliveredBefore(events, k), DeliveredBefore(events, k + 1));
  }

  lemma {:induction false} SubsetSize(a: set<nat>, b: set<nat>)
    requires a <= b
    ensures |a| <= |b|
  {
    if a != {} {
      var x :| x in a;
      SubsetSize(a - {x}, b - {x});
    }
  }

  class FailureEvents {
    var records: map<(nat, nat), Dedup>

    constructor ()
      ensures records == map[]
    {
      records := map[];
    }

    ghost function Record(dp: nat, generation: nat): Dedup
      reads this
    {
      if (dp, generation) in records then records[(dp, generation)] else FIRST
    }

    /** Consults and updates one data plane's record; every other one is left alone. */
    method AlreadyApplied(dp: nat, generation: nat, event: nat) returns (already: bool)
      requires Valid(Record(dp, generation))
      modifies this
      ensures already <==> Known(old(Record(dp, generation)), event)
      ensures records == old(records)[(dp, generation) := Delivered(old(Record(dp, generation)), event)]
      ensures Valid(Record(dp, generation))
    {
      ghost var before := Record(dp, generation);
      DeliveredValid(before, event);
      var state := if (dp, generation) in records then records[(dp, generation)] else Dedup({}, 0);
      records := records[(dp, generation) := state];
      if event <= state.floor {
        return true;
      }
      if event in state.seqs {
        return true;
      }
      var seqs, floor := state.seqs + {event}, state.floor;
      if |seqs| > 4096 {
        var max := event;
        var rest := state.seqs;
        while rest != {}
          invariant rest <= state.seqs && max in seqs
          invariant forall x :: x in seqs && x !in rest ==> x <= max
        {
          var x :| x in rest;
          max := if x > max then x else max;
          rest := rest - {x};
        }
        assert IsMax(seqs, max) && IsMax(seqs, MaxOf(seqs)) && max == MaxOf(seqs);
        AtMostSoMany(seqs, state.floor, max);
        floor := max - 1024;
        seqs := set x | x in seqs && x > floor;
      }
      assert Dedup(seqs, floor) == Delivered(before, event);
      records := records[(dp, generation) := Dedup(seqs, floor)];
      return false;
    }
  }
}
