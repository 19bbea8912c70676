/**
 One data plane's side of shared admission, over the slot array: check the sum, raise the own slot,
 shed when a slot is unreadable, stop when the slot belongs to somebody else.
 */
module SharedAdmission {
  import opened RouterTypes
  import opened AdmissionBound
  import Seqlock

  datatype SlotView = SlotView(
    seqno: nat, inflight: nat, peak: nat, rejected: nat, generation: nat, pid: nat)
  {
    predicate Readable() { seqno % 2 == 0 }
  }

  function Inflights(views: seq<SlotView>): seq<nat> {
    seq(|views|, k requires 0 <= k < |views| => views[k].inflight)
  }

  function Rejections(views: seq<SlotView>): seq<nat> {
    seq(|views|, k requires 0 <= k < |views| => views[k].rejected)
  }

  lemma {:induction false} SumAppend(xs: seq<nat>, x: nat)
    ensures Sum(xs + [x]) == Sum(xs) + x
    decreases |xs|
  {
    if xs == [] {
      assert xs + [x] == [x];
      assert Sum([x]) == x + Sum([]);
    } else {
      SumAppend(xs[1..], x);
      assert (xs + [x])[1..] == xs[1..] + [x];
    }
  }

  class SharedAdmission {
    const slots: array<SlotView>
    const own: nat
    const max: nat
    const generation: nat
    const pid: nat
    var inflight: nat
    var peak: nat
    var rejected: nat
    var siblingUnstable: bool
    var fenced: bool

    ghost predicate Valid()
      reads this
    {
      own < slots.Length
    }

    /** The slot still carries this process's identity and can be read. */
    ghost predicate Owns()
      requires Valid()
      reads this, slots
    {
      slots[own].Readable() && slots[own].generation == generation && slots[own].pid == pid
    }

    /** The slot shows what this process counts. */
    ghost predicate Mirrored()
      requires Valid()
      reads this, slots
    {
      slots[own] == SlotView(slots[own].seqno, inflight, peak, rejected, generation, pid) && slots[own].Readable()
    }

    /** Everything but the own slot is as before, and the own slot moved to a later readable number. */
    twostate predicate OnlyOwnWritten()
      requires Valid()
      reads this, slots
    {
      && Mirrored()
      && slots[own].seqno > old(slots[own].seqno)
      && forall k :: 0 <= k < slots.Length && k != own ==> slots[k] == old(slots[k])
    }

    /** Claims the slot. */
    constructor (slots: array<SlotView>, own: nat, max: nat, generation: nat, pid: nat)
      requires own < slots.Length
      modifies slots
      ensures this.slots == slots && this.own == own && this.max == max
      ensures this.generation == generation && this.pid == pid
      ensures Valid() && Mirrored() && Owns() && inflight == 0 && rejected == 0 && !siblingUnstable && !fenced
      ensures forall k :: 0 <= k < slots.Length && k != own ==> slots[k] == old(slots[k])
    {
      this.slots, this.own, this.max, this.generation, this.pid := slots, own, max, generation, pid;
      inflight, peak, rejected, siblingUnstable, fenced := 0, 0, 0, false, false;
      new;
      WriteOwn();
    }

    method WriteOwn()
      requires Valid()
      modifies slots
      ensures OnlyOwnWritten()
    {
      slots[own] := SlotView(Seqlock.Marker(slots[own].seqno) + 1, inflight, peak, rejected, generation, pid);
    }

    /** The pass over all slots; `None` as soon as one is unreadable. */
    method TotalInflight() returns (total: Option<nat>)
      ensures total.Some? <==> forall k :: 0 <= k < slots.Length ==> slots[k].Readable()
      ensures total.Some? ==> total.value == Sum(Inflights(slots[..]))
    {
      var sum := 0;
      for k := 0 to slots.Length
        invariant forall j :: 0 <= j < k ==> slots[j].Readable()
        invariant sum == Sum(Inflights(slots[..k]))
      {
        if slots[k].seqno % 2 == 1 {
          return None;
        }
        SumAppend(Inflights(slots[..k]), slots[k].inflight);
        assert Inflights(slots[..k + 1]) == Inflights(slots[..k]) + [slots[k].inflight];
        sum := sum + slots[k].inflight;
      }
      assert slots[..slots.Length] == slots[..];
      return Some(sum);
    }

    /**
     `recent` says the last probe of an unreadable sibling is younger than the re-probe interval. The
     request is admitted exactly when the process owns its slot, no cached or present unreadable slot
     stands in the way, and the sum is below the bound; every other answer of an owner is counted.
     */
    method TryAcquire(recent: bool) returns (ok: bool)
      requires Valid()
      modifies this, slots
      ensures Valid()
      ensures ok <==>
        && old(Owns()) && !(old(siblingUnstable) && recent)
        && old(forall k :: 0 <= k < slots.Length ==> slots[k].Readable())
        && Sum(Inflights(old(slots[..]))) < max
      ensures !old(Owns()) ==>
        && slots[..] == old(slots[..]) && inflight == old(inflight) && rejected == old(rejected) && peak == old(peak)
        && (fenced <==> old(fenced) || old(slots[own].Readable()))
      ensures old(Owns()) ==> OnlyOwnWritten() && fenced == old(fenced)
      ensures siblingUnstable <==>
        if old(Owns()) && !(old(siblingUnstable) && recent)
        then old(exists k :: 0 <= k < slots.Length && !slots[k].Readable()) else old(siblingUnstable)
      ensures ok ==>
        && inflight == old(inflight) + 1 && rejected == old(rejected) && !siblingUnstable
        && peak >= old(peak) && peak >= Sum(Inflights(old(slots[..]))) + 1
        && (peak == old(peak) || peak == Sum(Inflights(old(slots[..]))) + 1)
      ensures old(Owns()) && !ok ==> inflight == old(inflight) && rejected == old(rejected) + 1 && peak == old(peak)
    {
      if slots[own].seqno % 2 == 1 {
        return false;
      }
      if slots[own].generation != generation || slots[own].pid != pid {
        fenced := true;
        return false;
      }
      if siblingUnstable && recent {
        rejected := rejected + 1;
        WriteOwn();
        return false;
      }
      var total := TotalInflight();
      siblingUnstable := total.None?;
      if total.None? || total.value >= max {
        rejected := rejected + 1;
        WriteOwn();
        return false;
      }
      inflight := inflight + 1;
      if total.value + 1 > peak {
        peak := total.value + 1;
      }
      WriteOwn();
      return true;
    }

    /** A stray release never drives the count below zero; one that no longer owns the slot changes nothing. */
    method Release()
      requires Valid()
      modifies this`inflight, this`fenced, slots
      ensures Valid()
      ensures old(Owns()) && old(inflight) > 0 ==> inflight == old(inflight) - 1 && OnlyOwnWritten()
      ensures !old(Owns()) || old(inflight) == 0 ==> inflight == old(inflight) && slots[..] == old(slots[..])
      ensures fenced <==> old(fenced) || old(slots[own].Readable() && !Owns())
    {
      if slots[own].seqno % 2 == 1 {
        return;
      }
      if slots[own].generation != generation || slots[own].pid != pid {
        fenced := true;
        return;
      }
      if inflight == 0 {
        return;
      }
      inflight := inflight - 1;
      WriteOwn();
    }
  }

  /** An acquire followed by its release leaves the shared sum where it was. */
  method AcquireThenRelease(a: SharedAdmission, recent: bool) returns (ok: bool)
    requires a.Valid() && a.Mirrored()
    modifies a, a.slots
    ensures a.inflight == old(a.inflight)
    ensures Inflights(a.slots[..]) == old(Inflights(a.slots[..]))
  {
    ok := a.TryAcquire(recent);
    if ok {
      a.Release();
    }
  }

  datatype Aggregate = Aggregate(inflight: nat, peak: nat, rejected: nat)

  /** What one pass of the aggregate reader saw; `None` is a slot it could not read. */
  datatype Pass = Pass(version: Option<nat>, views: seq<Option<SlotView>>, retired: Option<SlotView>) {
    predicate Whole() {
      version.Some? && retired.Some? && forall v :: v in views ==> v.Some?
    }

    /** The retired slot kept its number, so no fold came in between. */
    predicate Settled() {
      Whole() && retired.value.seqno == version.value
    }
  }

  function Views(pass: Pass): seq<SlotView>
    requires pass.Whole()
  {
    seq(|pass.views|, k requires 0 <= k < |pass.views| => assert pass.views[k] in pass.views; pass.views[k].value)
  }

  /** Both refusals are exceptions in the source: a slot that cannot be read, and passes that never settle. */
  datatype AggregateResult = Added(value: Aggregate) | UnreadableSlot | NeverSettled

  /** Pass `k` decides: every earlier one was whole, but a fold came in between. */
  predicate Decides(passes: seq<Pass>, k: nat) {
    && k < |passes| && (passes[k].Settled() || !passes[k].Whole())
    && forall j :: 0 <= j < k ==> passes[j].Whole() && !passes[j].Settled()
  }

  /** Up to four passes. The first that decides either fails the whole call or is added up. */
  method AggregateToDict(passes: seq<Pass>) returns (result: AggregateResult)
    requires |passes| == 4
    ensures result.NeverSettled? <==> forall k :: 0 <= k < 4 ==> passes[k].Whole() && !passes[k].Settled()
    ensures result.UnreadableSlot? <==> exists k: nat :: Decides(passes, k) && !passes[k].Whole()
    ensures result.Added? ==> exists k: nat ::
      && Decides(passes, k) && passes[k].Settled()
      && result.value.rejected == Sum(Rejections(Views(passes[k]))) + passes[k].retired.value.rejected
      && result.value.inflight == Sum(Inflights(Views(passes[k])))
      && (forall v :: v in Views(passes[k]) + [passes[k].retired.value] ==> v.peak <= result.value.peak)
      && (exists v :: v in Views(passes[k]) + [passes[k].retired.value] && v.peak == result.value.peak)
  {
    for k := 0 to 4
      invariant forall j :: 0 <= j < k ==> passes[j].Whole() && !passes[j].Settled()
    {
      if passes[k].version.None? || None in passes[k].views || passes[k].retired.None? {
        assert Decides(passes, k);
        return UnreadableSlot;
      }
      if passes[k].retired.value.seqno == passes[k].version.value {
        assert Decides(passes, k);
        var added := AddUp(Views(passes[k]), passes[k].retired.value);
        return Added(added);
      }
    }
    return NeverSettled;
  }

  method AddUp(views: seq<SlotView>, retired: SlotView) returns (a: Aggregate)
    ensures a.rejected == Sum(Rejections(views)) + retired.rejected
    ensures a.inflight == Sum(Inflights(views))
    ensures forall v :: v in views + [retired] ==> v.peak <= a.peak
    ensures exists v :: v in views + [retired] && v.peak == a.peak
  {
    var inflight, rejected, peak := 0, 0, retired.peak;
    ghost var highest := retired;
    for k := 0 to |views|
      invariant inflight == Sum(Inflights(views[..k])) && rejected == Sum(Rejections(views[..k]))
      invariant retired.peak <= peak && forall j :: 0 <= j < k ==> views[j].peak <= peak
      invariant highest.peak == peak && highest in views + [retired]
    {
      SumAppend(Inflights(views[..k]), views[k].inflight);
      SumAppend(Rejections(views[..k]), views[k].rejected);
      assert Inflights(views[..k + 1]) == Inflights(views[..k]) + [views[k].inflight];
      assert Rejections(views[..k + 1]) == Rejections(views[..k]) + [views[k].rejected];
      inflight, rejected := inflight + views[k].inflight, rejected + views[k].rejected;
      if views[k].peak > peak {
        peak, highest := views[k].peak, views[k];
      }
    }
    assert views[..|views|] == views;
    a := Aggregate(inflight, peak, rejected + retired.rejected);
  }
}
