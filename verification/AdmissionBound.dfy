/**
 The shared in-flight bound: every data plane checks a sum it reads slot by slot, then raises its
 own slot, while the others acquire, release, die and are reclaimed. A slot read is one step that
 needs the slot to be stable, which is what `Seqlock.ReadsAreAtomic` justifies.
 */
module AdmissionBound {
  import opened RouterTypes

  function Sum(xs: seq<nat>): nat {
    if xs == [] then 0 else xs[0] + Sum(xs[1..])
  }

  /** The in-flight word of a slot; `odd` while somebody is, or died, in the middle of writing it. */
  datatype Slot = Slot(word: nat, odd: bool)

  /** One pass over the slots: when it started, and what it has read so far, in slot order. */
  datatype Scan = Scan(start: nat, seen: seq<nat>)

  datatype Activity = Idle | Scanning(scan: Scan) | Writing

  /** `local` is the process's own count. A dead process's slot waits for the supervisor. */
  datatype Process = Live(local: nat, activity: Activity) | Dead | Vacant

  /** `clock` and `last` (each slot's last successful check) are history only. */
  datatype State = State(slots: seq<Slot>, dps: seq<Process>, clock: nat, last: seq<Option<Scan>>)

  datatype Step =
    | StartScan(i: nat)
    | ReadSlot(i: nat)
    | Admit(i: nat)
    | Rewrite(i: nat)   // a shed or a heartbeat: the same count is written again
    | Release(i: nat)
    | Mark(i: nat)
    | Put(i: nat)
    | Finish(i: nat)
    | Die(i: nat)
    | Reclaim(i: nat, slot: Slot)
    | Reclaimed(i: nat)
    | Spawn(i: nat)

  predicate Init(s: State, n: nat) {
    && |s.slots| == |s.dps| == |s.last| == n
    && forall i :: 0 <= i < n ==> s.slots[i] == Slot(0, false) && s.dps[i] == Vacant && s.last[i] == None
  }

  function WithDp(s: State, i: nat, dp: Process): State
    requires i < |s.dps|
  {
    s.(dps := s.dps[i := dp])
  }

  function WithSlot(s: State, i: nat, slot: Slot): State
    requires i < |s.slots|
  {
    s.(slots := s.slots[i := slot])
  }

  predicate LiveStep(s: State, step: Step, t: State, max: nat)
    requires step.i < |s.slots| == |s.dps| == |s.last|
  {
    var i := step.i;
    && s.dps[i].Live?
    && var dp := s.dps[i];
    match step
    case StartScan(_) =>
      && dp.activity.Idle?
      && t == WithDp(s, i, dp.(activity := Scanning(Scan(s.clock, [])))).(clock := s.clock + 1)
    case ReadSlot(_) =>
      && dp.activity.Scanning? && |dp.activity.scan.seen| < |s.slots|
      && var slot := s.slots[|dp.activity.scan.seen|];
      && !slot.odd
      && t == WithDp(s, i, dp.(activity := Scanning(
                dp.activity.scan.(seen := dp.activity.scan.seen + [slot.word]))))
    case Admit(_) =>
      && dp.activity.Scanning? && |dp.activity.scan.seen| == |s.slots|
      && Sum(dp.activity.scan.seen) < max
      && t == WithDp(s, i, Live(dp.local + 1, Writing)).(last := s.last[i := Some(dp.activity.scan)])
    case Rewrite(_) => !dp.activity.Writing? && t == WithDp(s, i, dp.(activity := Writing))
    case Release(_) =>
      dp.activity.Idle? && dp.local > 0 && t == WithDp(s, i, Live(dp.local - 1, Writing))
    case Mark(_) => dp.activity.Writing? && !s.slots[i].odd && t == WithSlot(s, i, s.slots[i].(odd := true))
    case Put(_) => dp.activity.Writing? && s.slots[i].odd && t == WithSlot(s, i, Slot(dp.local, true))
    case Finish(_) =>
      && dp.activity.Writing? && s.slots[i] == Slot(dp.local, true)
      && t == WithDp(WithSlot(s, i, Slot(dp.local, false)), i, dp.(activity := Idle))
    case Die(_) => t == WithDp(s, i, Process.Dead)
    case _ => false
  }

  /** The supervisor zeroes a dead process's slot word by word; only then is the next one spawned. */
  predicate SupervisorStep(s: State, step: Step, t: State)
    requires step.i < |s.slots| == |s.dps| == |s.last|
  {
    var i := step.i;
    match step
    case Reclaim(_, slot) =>
      s.dps[i].Dead? && slot.odd && (slot.word == s.slots[i].word || slot.word == 0) && t == WithSlot(s, i, slot)
    case Reclaimed(_) =>
      s.dps[i].Dead? && s.slots[i].word == 0 && t == WithDp(WithSlot(s, i, Slot(0, false)), i, Vacant)
    case Spawn(_) => s.dps[i].Vacant? && t == WithDp(s, i, Live(0, Writing))
    case _ => false
  }

  predicate Next(s: State, step: Step, t: State, max: nat) {
    && step.i < |s.slots| == |s.dps| == |s.last|
    && (LiveStep(s, step, t, max) || SupervisorStep(s, step, t))
  }

  predicate Run(states: seq<State>, steps: seq<Step>, n: nat, max: nat) {
    && |states| == |steps| + 1
    && Init(states[0], n)
    && forall k :: 0 <= k < |steps| ==> Next(states[k], steps[k], states[k + 1], max)
  }

  // ---------------------------------------------------------------- the invariant

  /** The most that slot `k` shows now or will show without another successful check. */
  function Upper(s: State, k: nat): nat
    requires k < |s.slots| == |s.dps|
  {
    if s.dps[k].Live? && s.dps[k].local > s.slots[k].word then s.dps[k].local else s.slots[k].word
  }

  predicate ProcessInv(s: State, k: nat)
    requires k < |s.slots| == |s.dps| == |s.last|
  {
    && (s.last[k].Some? ==> s.last[k].value.start < s.clock)
    && (s.last[k].None? ==> Upper(s, k) == 0)
    && (s.dps[k].Vacant? ==> s.slots[k].word == 0)
    && (s.dps[k].Live? ==>
          && s.dps[k].local <= s.slots[k].word + 1
          && (!s.dps[k].activity.Writing? ==> s.slots[k] == Slot(s.dps[k].local, false))
          && (s.dps[k].activity.Scanning? ==> s.dps[k].activity.scan.start < s.clock))
  }

  predicate ScansSince(s: State, k: nat, start: nat)
    requires k < |s.dps|
  {
    s.dps[k].Live? && s.dps[k].activity.Scanning? && s.dps[k].activity.scan.start < start
  }

  /**
   What scan `scan` knows about slot `k`, if it has read it: a check that was already running when the
   scan started cannot have raised the slot yet; and only checks that started later than the scan can
   have raised it by more than one.
   */
  predicate ScanKnows(s: State, scan: Scan, k: nat)
    requires k < |s.slots| == |s.dps| == |s.last|
  {
    k < |scan.seen| ==>
      && (ScansSince(s, k, scan.start) ==> Upper(s, k) <= scan.seen[k])
      && (s.last[k].None? || s.last[k].value.start <= scan.start ==> Upper(s, k) <= scan.seen[k] + 1)
  }

  predicate ActiveKnows(s: State, j: nat)
    requires j < |s.slots| == |s.dps| == |s.last|
  {
    s.dps[j].Live? && s.dps[j].activity.Scanning? ==>
      var scan := s.dps[j].activity.scan;
      && |scan.seen| <= |s.slots|
      && (j < |scan.seen| ==> Upper(s, j) <= scan.seen[j])
      && (forall k :: 0 <= k < |s.slots| ==> ScanKnows(s, scan, k))
      && (forall k :: 0 <= k < |s.slots| && k != j && s.dps[k].Live? && s.dps[k].activity.Scanning? ==>
            s.dps[k].activity.scan.start != scan.start)
      && (forall k :: 0 <= k < |s.slots| && s.last[k].Some? ==> s.last[k].value.start != scan.start)
  }

  predicate LastKnows(s: State, j: nat, max: nat)
    requires j < |s.slots| == |s.dps| == |s.last|
  {
    s.last[j].Some? ==>
      var scan := s.last[j].value;
      && |scan.seen| == |s.slots| && Sum(scan.seen) < max
      && (forall k :: 0 <= k < |s.slots| ==> ScanKnows(s, scan, k))
  }

  predicate Inv(s: State, max: nat) {
    && |s.slots| == |s.dps| == |s.last|
    && (forall k :: 0 <= k < |s.slots| ==> ProcessInv(s, k) && ActiveKnows(s, k) && LastKnows(s, k, max))
  }

  lemma InitInv(s: State, n: nat, max: nat)
    requires Init(s, n)
    ensures Inv(s, max)
  {
  }

  /** Knowledge about `k` survives while `k` raises nothing and starts no earlier scan. */
  lemma KnowledgeKept(s: State, t: State, scan: Scan, k: nat)
    requires k < |s.slots| == |s.dps| == |s.last| == |t.slots| == |t.dps| == |t.last|
    requires ScanKnows(s, scan, k)
    requires Upper(t, k) <= Upper(s, k) && t.last[k] == s.last[k]
    requires ScansSince(t, k, scan.start) ==> ScansSince(s, k, scan.start)
    ensures ScanKnows(t, scan, k)
  {
  }

  predicate IsScanning(s: State, k: nat)
    requires k < |s.dps|
  {
    s.dps[k].Live? && s.dps[k].activity.Scanning?
  }

  /** Steps after which process `i` is not scanning and that raise nothing. */
  lemma CalmInv(s: State, i: nat, t: State, max: nat)
    requires Inv(s, max) && i < |s.slots| == |t.slots| == |t.dps| == |t.last|
    requires t.last == s.last && t.clock == s.clock
    requires forall k :: 0 <= k < |s.slots| && k != i ==> t.dps[k] == s.dps[k] && t.slots[k] == s.slots[k]
    requires !IsScanning(t, i) && ProcessInv(t, i) && Upper(t, i) <= Upper(s, i)
    ensures Inv(t, max)
  {
    forall j | 0 <= j < |t.slots| ensures ProcessInv(t, j) && ActiveKnows(t, j) && LastKnows(t, j, max) {
      assert ProcessInv(s, j) && ActiveKnows(s, j) && LastKnows(s, j, max);
      if s.last[j].Some? {
        forall k | 0 <= k < |t.slots| ensures ScanKnows(t, s.last[j].value, k) {
          KnowledgeKept(s, t, s.last[j].value, k);
        }
      }
      if IsScanning(t, j) {
        forall k | 0 <= k < |t.slots| ensures ScanKnows(t, t.dps[j].activity.scan, k) {
          KnowledgeKept(s, t, t.dps[j].activity.scan, k);
        }
      }
    }
  }

  lemma StartInv(s: State, i: nat, t: State, max: nat)
    requires Inv(s, max) && Next(s, StartScan(i), t, max)
    ensures Inv(t, max)
  {
    forall j | 0 <= j < |t.slots| ensures ProcessInv(t, j) && ActiveKnows(t, j) && LastKnows(t, j, max) {
      assert ProcessInv(s, j) && ActiveKnows(s, j) && LastKnows(s, j, max);
      if s.last[j].Some? {
        forall k | 0 <= k < |t.slots| ensures ScanKnows(t, s.last[j].value, k) {
          KnowledgeKept(s, t, s.last[j].value, k);
        }
      }
      if IsScanning(t, j) {
        forall k | 0 <= k < |t.slots| ensures ScanKnows(t, t.dps[j].activity.scan, k) {
          if j != i { KnowledgeKept(s, t, t.dps[j].activity.scan, k); }
        }
        forall k | 0 <= k < |t.slots|
          ensures s.last[k].Some? ==> s.last[k].value.start != t.dps[j].activity.scan.start
          ensures k != j && IsScanning(t, k) ==> t.dps[k].activity.scan.start != t.dps[j].activity.scan.start
        {
          assert ProcessInv(s, k);
        }
      }
    }
  }

  lemma ReadInv(s: State, i: nat, t: State, max: nat)
    requires Inv(s, max) && Next(s, ReadSlot(i), t, max)
    ensures Inv(t, max)
  {
    forall j | 0 <= j < |t.slots| ensures ProcessInv(t, j) && ActiveKnows(t, j) && LastKnows(t, j, max) {
      assert ProcessInv(s, j) && ActiveKnows(s, j) && LastKnows(s, j, max);
      if s.last[j].Some? {
        forall k | 0 <= k < |t.slots| ensures ScanKnows(t, s.last[j].value, k) {
          KnowledgeKept(s, t, s.last[j].value, k);
        }
      }
      if j == i {
        ReaderKnows(s, i, t, max);
      } else if IsScanning(t, j) {
        forall k | 0 <= k < |t.slots| ensures ScanKnows(t, t.dps[j].activity.scan, k) {
          KnowledgeKept(s, t, t.dps[j].activity.scan, k);
        }
      }
    }
  }

  /** The word just read is what the slot's owner has, or one less if its raise is not written yet. */
  lemma ReaderKnows(s: State, i: nat, t: State, max: nat)
    requires Inv(s, max) && Next(s, ReadSlot(i), t, max)
    ensures ActiveKnows(t, i)
  {
    assert ActiveKnows(s, i);
    assert ProcessInv(s, |s.dps[i].activity.scan.seen|);
    forall k | 0 <= k < |t.slots| ensures ScanKnows(t, t.dps[i].activity.scan, k) {
      assert ScanKnows(s, s.dps[i].activity.scan, k);
    }
  }

  lemma AdmitInv(s: State, i: nat, t: State, max: nat)
    requires Inv(s, max) && Next(s, Admit(i), t, max)
    ensures Inv(t, max)
  {
    assert ProcessInv(s, i) && ActiveKnows(s, i);
    forall j | 0 <= j < |t.slots| ensures ProcessInv(t, j) && ActiveKnows(t, j) && LastKnows(t, j, max) {
      assert ProcessInv(s, j) && ActiveKnows(s, j) && LastKnows(s, j, max);
      if t.last[j].Some? {
        forall k | 0 <= k < |t.slots| ensures ScanKnows(t, t.last[j].value, k) {
          assert ScanKnows(s, t.last[j].value, k);
        }
      }
      if IsScanning(t, j) {
        forall k | 0 <= k < |t.slots| ensures ScanKnows(t, t.dps[j].activity.scan, k) {
          assert ScanKnows(s, t.dps[j].activity.scan, k);
        }
      }
    }
  }

  lemma CalmStepInv(s: State, step: Step, t: State, max: nat)
    requires Inv(s, max) && Next(s, step, t, max)
    requires !step.StartScan? && !step.ReadSlot? && !step.Admit?
    ensures Inv(t, max) && |t.slots| == |s.slots|
  {
    hide ActiveKnows, LastKnows;
    assert ProcessInv(s, step.i);
    CalmInv(s, step.i, t, max);
  }

  lemma NextInv(s: State, step: Step, t: State, max: nat)
    requires Inv(s, max) && Next(s, step, t, max)
    ensures Inv(t, max) && |t.slots| == |s.slots|
  {
    hide ActiveKnows, LastKnows, ProcessInv;
    match step
    case StartScan(i) => StartInv(s, i, t, max);
    case ReadSlot(i) => ReadInv(s, i, t, max);
    case Admit(i) => AdmitInv(s, i, t, max);
    case _ => CalmStepInv(s, step, t, max);
  }

  lemma {:induction false} RunInv(states: seq<State>, steps: seq<Step>, n: nat, max: nat, k: nat)
    requires Run(states, steps, n, max) && k < |states|
    ensures Inv(states[k], max) && |states[k].slots| == n
  {
    if k == 0 {
      InitInv(states[0], n, max);
    } else {
      RunInv(states, steps, n, max, k - 1);
      NextInv(states[k - 1], steps[k - 1], states[k], max);
    }
  }

  // ---------------------------------------------------------------- the bound

  function Words(s: State): seq<nat> {
    seq(|s.slots|, k requires 0 <= k < |s.slots| => s.slots[k].word)
  }

  /** Slot by slot, the larger of what memory shows and what the process itself has admitted. */
  function Uppers(s: State): seq<nat>
    requires |s.slots| == |s.dps|
  {
    seq(|s.slots|, k requires 0 <= k < |s.slots| => Upper(s, k))
  }

  lemma {:induction false} SumAtMost(xs: seq<nat>, ys: seq<nat>, extra: nat)
    requires |xs| == |ys| && forall k :: 0 <= k < |xs| ==> xs[k] <= ys[k] + extra
    ensures Sum(xs) <= Sum(ys) + extra * |xs|
    decreases |xs|
  {
    if xs != [] {
      SumAtMost(xs[1..], ys[1..], extra);
      assert extra * |xs| == extra * |xs[1..]| + extra;
    }
  }

  /** Among the first `n` slots with a successful check, one whose check started last. */
  lemma {:induction false} LatestCheck(s: State, n: nat) returns (latest: Option<nat>)
    requires n <= |s.last|
    ensures latest.None? ==> forall k :: 0 <= k < n ==> s.last[k].None?
    ensures latest.Some? ==>
      && latest.value < n && s.last[latest.value].Some?
      && forall k :: 0 <= k < n && s.last[k].Some? ==> s.last[k].value.start <= s.last[latest.value].value.start
  {
    if n == 0 {
      return None;
    }
    latest := LatestCheck(s, n - 1);
    if s.last[n - 1].Some?
      && (latest.None? || s.last[latest.value].value.start < s.last[n - 1].value.start)
    {
      latest := Some(n - 1);
    }
  }

  /**
   The global bound is soft by at most one request per other data plane: with `n` slots and a bound
   of at least one, neither the in-flight words nor the requests admitted by live processes ever
   sum to more than `max + n - 1`.
   */
  lemma SoftBound(states: seq<State>, steps: seq<Step>, n: nat, max: nat, k: nat)
    requires Run(states, steps, n, max) && k < |states| && n > 0 && max > 0
    ensures |states[k].slots| == |states[k].dps|
    ensures Sum(Words(states[k])) <= Sum(Uppers(states[k])) <= max + n - 1
  {
    RunInv(states, steps, n, max, k);
    var s := states[k];
    SumAtMost(Words(s), Uppers(s), 0);
    var latest := LatestCheck(s, n);
    if latest.None? {
      forall i | 0 <= i < n ensures Uppers(s)[i] == 0 {
        assert ProcessInv(s, i);
      }
      SumZero(Uppers(s));
    } else {
      var scan := s.last[latest.value].value;
      assert LastKnows(s, latest.value, max);
      forall i | 0 <= i < n ensures Uppers(s)[i] <= scan.seen[i] + 1 {
        assert ScanKnows(s, scan, i);
      }
      SumAtMost(Uppers(s), scan.seen, 1);
    }
  }

  lemma {:induction false} SumZero(xs: seq<nat>)
    requires forall k :: 0 <= k < |xs| ==> xs[k] == 0
    ensures Sum(xs) == 0
    decreases |xs|
  {
    if xs != [] { SumZero(xs[1..]); }
  }

  // ---------------------------------------------------------------- the bound is reached

  lemma {:induction false} SumUpdate(xs: seq<nat>, i: nat, x: nat)
    requires i < |xs|
    ensures Sum(xs[i := x]) + xs[i] == Sum(xs) + x
    decreases |xs|
  {
    if i == 0 {
      assert xs[0 := x][1..] == xs[1..];
    } else {
      SumUpdate(xs[1..], i - 1, x);
      assert xs[i := x][1..] == xs[1..][i - 1 := x];
    }
  }

  lemma {:induction false} SumRaised(xs: seq<nat>, ys: seq<nat>)
    requires |xs| == |ys| && forall k :: 0 <= k < |xs| ==> ys[k] == xs[k] + 1
    ensures Sum(ys) == Sum(xs) + |xs|
    decreases |xs|
  {
    if xs != [] { SumRaised(xs[1..], ys[1..]); }
  }

  ghost predicate Reachable(s: State, n: nat, max: nat) {
    exists states, steps :: Run(states, steps, n, max) && states[|states| - 1] == s
  }

  lemma ReachNext(s: State, step: Step, t: State, n: nat, max: nat)
    requires Reachable(s, n, max) && Next(s, step, t, max)
    ensures Reachable(t, n, max)
  {
    var states, steps :| Run(states, steps, n, max) && states[|states| - 1] == s;
    var states', steps' := states + [t], steps + [step];
    forall k | 0 <= k < |steps'| ensures Next(states'[k], steps'[k], states'[k + 1], max) {
      if k < |steps| { assert Next(states[k], steps[k], states[k + 1], max); }
    }
    assert Run(states', steps', n, max) && states'[|states'| - 1] == t;
  }

  /** Every process runs with its slot written, holds `locals[k]` requests, and is about `acts[k]`. */
  predicate Settled(s: State, locals: seq<nat>, acts: seq<Activity>) {
    && |s.slots| == |s.dps| == |s.last| == |locals| == |acts|
    && forall k :: 0 <= k < |locals| ==> s.slots[k] == Slot(locals[k], false) && s.dps[k] == Live(locals[k], acts[k])
  }

  function Crew(n: nat, spawned: nat): State {
    State(seq(n, k => Slot(0, false)), seq(n, k => if k < spawned then Live(0, Idle) else Vacant), 0, seq(n, k => None))
  }

  /** A spawned process writes its empty slot before anything else. */
  lemma {:induction false} CrewReachable(n: nat, max: nat, spawned: nat)
    requires spawned <= n
    ensures Reachable(Crew(n, spawned), n, max)
  {
    if spawned == 0 {
      assert Run([Crew(n, 0)], [], n, max);
    } else {
      var i, s := spawned - 1, Crew(n, spawned - 1);
      CrewReachable(n, max, i);
      var t := WithDp(s, i, Live(0, Writing));
      ReachNext(s, Spawn(i), t, n, max);
      var u := WithSlot(t, i, Slot(0, true));
      ReachNext(t, Mark(i), u, n, max);
      var v := WithDp(WithSlot(u, i, Slot(0, false)), i, Live(0, Idle));
      ReachNext(u, Finish(i), v, n, max);
      assert v.dps == Crew(n, spawned).dps && v.slots == Crew(n, spawned).slots;
    }
  }

  lemma {:induction false} ScanSome(s: State, locals: seq<nat>, acts: seq<Activity>, i: nat, seen: nat, max: nat)
    returns (t: State)
    requires Reachable(s, |locals|, max) && Settled(s, locals, acts)
    requires i < |locals| && acts[i] == Idle && seen <= |locals|
    ensures Reachable(t, |locals|, max)
    ensures Settled(t, locals, acts[i := Scanning(Scan(s.clock, locals[..seen]))])
  {
    if seen == 0 {
      t := WithDp(s, i, Live(locals[i], Scanning(Scan(s.clock, [])))).(clock := s.clock + 1);
      ReachNext(s, StartScan(i), t, |locals|, max);
    } else {
      var r := ScanSome(s, locals, acts, i, seen - 1, max);
      t := WithDp(r, i, Live(locals[i], Scanning(Scan(s.clock, locals[..seen]))));
      assert locals[..seen] == locals[..seen - 1] + [locals[seen - 1]];
      ReachNext(r, ReadSlot(i), t, |locals|, max);
    }
  }

  /** A check that passed is followed by the admission and the write that shows it. */
  lemma AdmitWhole(s: State, locals: seq<nat>, acts: seq<Activity>, i: nat, max: nat) returns (t: State)
    requires Reachable(s, |locals|, max) && Settled(s, locals, acts)
    requires i < |locals| && acts[i].Scanning? && |acts[i].scan.seen| == |locals| && Sum(acts[i].scan.seen) < max
    ensures Reachable(t, |locals|, max)
    ensures Settled(t, locals[i := locals[i] + 1], acts[i := Idle])
  {
    var n, more := |locals|, locals[i] + 1;
    var s1 := WithDp(s, i, Live(more, Writing)).(last := s.last[i := Some(acts[i].scan)]);
    ReachNext(s, Admit(i), s1, n, max);
    var s2 := WithSlot(s1, i, s1.slots[i].(odd := true));
    ReachNext(s1, Mark(i), s2, n, max);
    var s3 := WithSlot(s2, i, Slot(more, true));
    ReachNext(s2, Put(i), s3, n, max);
    t := WithDp(WithSlot(s3, i, Slot(more, false)), i, Live(more, Idle));
    ReachNext(s3, Finish(i), t, n, max);
  }

  function Filled(n: nat, c: nat): (locals: seq<nat>)
    requires n > 0
    ensures |locals| == n
  {
    seq(n, k => 0)[0 := c]
  }

  lemma FilledSum(n: nat, c: nat)
    requires n > 0
    ensures Sum(Filled(n, c)) == c
  {
    SumZero(seq(n, k => 0));
    SumUpdate(seq(n, k => 0), 0, c);
  }

  /** One process admits `c` requests while all others idle. */
  lemma {:induction false} FillFirst(n: nat, max: nat, c: nat) returns (s: State)
    requires n > 0 && c < max
    ensures Reachable(s, n, max) && Settled(s, Filled(n, c), seq(n, k => Idle))
  {
    if c == 0 {
      CrewReachable(n, max, n);
      s := Crew(n, n);
    } else {
      var idle := seq(n, k => Idle);
      var r := FillFirst(n, max, c - 1);
      var scanned := ScanSome(r, Filled(n, c - 1), idle, 0, n, max);
      assert Filled(n, c - 1)[..n] == Filled(n, c - 1);
      FilledSum(n, c - 1);
      s := AdmitWhole(scanned, Filled(n, c - 1), idle[0 := Scanning(Scan(r.clock, Filled(n, c - 1)))], 0, max);
      assert Filled(n, c - 1)[0 := c] == Filled(n, c) && idle[0 := Scanning(Scan(r.clock, Filled(n, c - 1)))][0 := Idle] == idle;
    }
  }

  /** Then each in turn completes a check, all of them before anybody admits. */
  lemma {:induction false} AllScan(n: nat, max: nat, j: nat) returns (s: State, acts: seq<Activity>)
    requires n > 0 && max > 0 && j <= n
    ensures Reachable(s, n, max) && Settled(s, Filled(n, max - 1), acts)
    ensures |acts| == n && forall k :: 0 <= k < n ==>
      if k < j then acts[k].Scanning? && acts[k].scan.seen == Filled(n, max - 1) else acts[k] == Idle
  {
    if j == 0 {
      s := FillFirst(n, max, max - 1);
      acts := seq(n, k => Idle);
    } else {
      var r, before := AllScan(n, max, j - 1);
      s := ScanSome(r, Filled(n, max - 1), before, j - 1, n, max);
      assert Filled(n, max - 1)[..n] == Filled(n, max - 1);
      acts := before[j - 1 := Scanning(Scan(r.clock, Filled(n, max - 1)))];
    }
  }

  lemma {:induction false} AllAdmit(n: nat, max: nat, j: nat) returns (s: State, locals: seq<nat>, acts: seq<Activity>)
    requires n > 0 && max > 0 && j <= n
    ensures |locals| == |acts| == n && Reachable(s, n, max) && Settled(s, locals, acts)
    ensures forall k :: 0 <= k < n ==>
      && locals[k] == Filled(n, max - 1)[k] + (if k < j then 1 else 0)
      && (k >= j ==> acts[k].Scanning? && acts[k].scan.seen == Filled(n, max - 1))
  {
    if j == 0 {
      s, acts := AllScan(n, max, n);
      locals := Filled(n, max - 1);
    } else {
      var r, before, doing := AllAdmit(n, max, j - 1);
      FilledSum(n, max - 1);
      s := AdmitWhole(r, before, doing, j - 1, max);
      locals, acts := before[j - 1 := before[j - 1] + 1], doing[j - 1 := Idle];
    }
  }

  /** The limit of `SoftBound` is tight: for every number of data planes and every bound some run reaches it. */
  lemma OvershootHappens(n: nat, max: nat)
    requires n > 0 && max > 0
    ensures exists states: seq<State>, steps: seq<Step> ::
      Run(states, steps, n, max) && Sum(Words(states[|states| - 1])) == max + n - 1
  {
    var s, locals, acts := AllAdmit(n, max, n);
    FilledSum(n, max - 1);
    SumRaised(Filled(n, max - 1), locals);
    assert Words(s) == locals;
    var states, steps :| Run(states, steps, n, max) && states[|states| - 1] == s;
  }
}
