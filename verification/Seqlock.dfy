/**
 One shared-memory slot: a sequence word and the field words. `SlotCodec` writes it word by word;
 the state machine below runs those very stores one at a time against a reader, with the writer
 dying between any two of them and a successor writing over whatever it left.
 */
module Seqlock {
  import opened RouterTypes

  type Words = seq<int>

  datatype Store = SetSeq(value: nat) | SetWord(index: nat, word: int)

  datatype Slot = Slot(seqno: nat, words: Words) {
    function Do(store: Store): Slot {
      match store
      case SetSeq(v) => Slot(v, words)
      case SetWord(i, v) => if i < |words| then Slot(seqno, words[i := v]) else this
    }

    function DoAll(stores: seq<Store>): Slot
      decreases |stores|
    {
      if stores == [] then this else Do(stores[0]).DoAll(stores[1..])
    }
  }

  /** `seq | 1`: a sequence word left odd by a dead writer is taken over as it is. */
  function Marker(seqno: nat): nat {
    if seqno % 2 == 0 then seqno + 1 else seqno
  }

  function FieldStores(fields: Words, from: nat): seq<Store>
    requires from <= |fields|
    decreases |fields| - from
  {
    if from == |fields| then [] else [SetWord(from, fields[from])] + FieldStores(fields, from + 1)
  }

  /** The stores of one complete write, in program order. */
  function WriteProgram(seqno: nat, fields: Words): seq<Store> {
    [SetSeq(Marker(seqno))] + FieldStores(fields, 0) + [SetSeq(Marker(seqno) + 1)]
  }

  // ---------------------------------------------------------------- the state machine

  /** The write in progress: what it writes, and the stores it has not done yet. */
  datatype Writer = NoWriter | Writing(fields: Words, todo: seq<Store>)

  /** `Opened` has seen an even word; `got` are the words copied since, after the word `mid`. */
  datatype Reader = Outside | Opened(before: nat) | Copying(before: nat, mid: nat, got: Words)

  /** `published` is history only: the fields every completed write published, by its even number. */
  datatype State = State(slot: Slot, writer: Writer, reader: Reader, published: map<nat, Words>)

  datatype View = View(seqno: nat, fields: Words)

  datatype Step =
    | Begin(fields: Words)
    | StoreNext
    | WriterDies
    | Open
    | CopySeq
    | CopyWord
    | Retry
    | Accept(view: View)

  predicate Init(s: State, width: nat) {
    && s.slot == Slot(0, seq(width, i => 0))
    && s.writer == NoWriter && s.reader == Outside && s.published == map[0 := s.slot.words]
  }

  predicate Next(s: State, step: Step, t: State) {
    match step
    case Begin(fields) =>
      && s.writer.NoWriter? && |fields| == |s.slot.words|
      && t == s.(writer := Writing(fields, WriteProgram(s.slot.seqno, fields)))
    case StoreNext =>
      && s.writer.Writing? && s.writer.todo != []
      && var slot := s.slot.Do(s.writer.todo[0]);
      && var last := |s.writer.todo| == 1;
      && t == s.(slot := slot,
                 writer := if last then NoWriter else s.writer.(todo := s.writer.todo[1..]),
                 published := if last then s.published[slot.seqno := s.writer.fields] else s.published)
    case WriterDies => s.writer.Writing? && t == s.(writer := NoWriter)
    case Open =>
      && s.reader.Outside? && s.slot.seqno % 2 == 0
      && t == s.(reader := Opened(s.slot.seqno))
    case CopySeq => s.reader.Opened? && t == s.(reader := Copying(s.reader.before, s.slot.seqno, []))
    case CopyWord =>
      && s.reader.Copying? && |s.reader.got| < |s.slot.words|
      && t == s.(reader := s.reader.(got := s.reader.got + [s.slot.words[|s.reader.got|]]))
    case Retry => !s.reader.Outside? && t == s.(reader := Outside)
    case Accept(view) =>
      && s.reader.Copying? && |s.reader.got| == |s.slot.words| && s.slot.seqno == s.reader.before
      && view == View(s.reader.mid, s.reader.got)
      && t == s.(reader := Outside)
  }

  predicate Run(states: seq<State>, steps: seq<Step>, width: nat) {
    && |states| == |steps| + 1
    && Init(states[0], width)
    && forall k :: 0 <= k < |steps| ==> Next(states[k], steps[k], states[k + 1])
  }

  // ---------------------------------------------------------------- the invariant

  predicate Quiet(s: State) {
    s.slot.seqno in s.published && s.published[s.slot.seqno] == s.slot.words
  }

  ghost predicate WriterInv(s: State) {
    s.writer.Writing? ==>
      && |s.writer.fields| == |s.slot.words|
      && (|| s.writer.todo == WriteProgram(s.slot.seqno, s.writer.fields)
          || (exists k: nat :: InFields(s, k)))
  }

  /** The marker is out and exactly the first `k` words are written. */
  predicate InFields(s: State, k: nat)
    requires s.writer.Writing?
  {
    && k <= |s.writer.fields| == |s.slot.words|
    && s.slot.seqno % 2 == 1
    && s.writer.todo == FieldStores(s.writer.fields, k) + [SetSeq(s.slot.seqno + 1)]
    && s.slot.words[..k] == s.writer.fields[..k]
  }

  predicate ReaderInv(s: State) {
    match s.reader
    case Outside => true
    case Opened(before) => before % 2 == 0 && before <= s.slot.seqno
    case Copying(before, mid, got) =>
      && before % 2 == 0 && before <= s.slot.seqno
      && |got| <= |s.slot.words|
      && (before == s.slot.seqno ==> mid == before && got == s.slot.words[..|got|])
  }

  ghost predicate Inv(s: State) {
    && (s.slot.seqno % 2 == 0 ==> Quiet(s))
    && (forall q :: q in s.published ==> q <= s.slot.seqno && q % 2 == 0)
    && WriterInv(s)
    && ReaderInv(s)
  }

  lemma StoreInv(s: State, t: State)
    requires Inv(s) && Next(s, StoreNext, t)
    ensures Inv(t)
    ensures |s.writer.todo| == 1 ==> t.slot.seqno !in s.published
    ensures s.slot.seqno <= t.slot.seqno
  {
    var fields := s.writer.fields;
    if s.writer.todo == WriteProgram(s.slot.seqno, fields) {
      assert s.writer.todo[1..] == FieldStores(fields, 0) + [SetSeq(Marker(s.slot.seqno) + 1)];
      assert InFields(t, 0);
    } else {
      var k: nat :| InFields(s, k);
      if k < |fields| {
        assert s.writer.todo[1..] == FieldStores(fields, k + 1) + [SetSeq(s.slot.seqno + 1)];
        assert t.slot.words[..k + 1] == fields[..k + 1];
        assert InFields(t, k + 1);
      } else {
        assert s.slot.words == s.slot.words[..k] == fields[..k] == fields;
      }
    }
  }

  lemma NextInv(s: State, step: Step, t: State)
    requires Inv(s) && Next(s, step, t)
    ensures Inv(t) && |t.slot.words| == |s.slot.words|
  {
    if step.StoreNext? {
      StoreInv(s, t);
    } else if s.writer.Writing? && s.writer.todo != WriteProgram(s.slot.seqno, s.writer.fields) {
      var k: nat :| InFields(s, k);
      assert t.writer.Writing? ==> InFields(t, k);
    }
  }

  lemma {:induction false} RunInv(states: seq<State>, steps: seq<Step>, width: nat, k: nat)
    requires Run(states, steps, width) && k < |states|
    ensures Inv(states[k]) && |states[k].slot.words| == width
  {
    if k > 0 {
      RunInv(states, steps, width, k - 1);
      NextInv(states[k - 1], steps[k - 1], states[k]);
    }
  }

  // ---------------------------------------------------------------- what a read returns

  /**
   Every view a read returns is the field set of one completed write (or the initial zeros), under
   the number that write published; and it is what the slot holds at the instant of acceptance, so
   a successful read may be treated as one atomic step.
   */
  lemma ReadsAreAtomic(states: seq<State>, steps: seq<Step>, width: nat, k: nat)
    requires Run(states, steps, width) && k < |steps| && steps[k].Accept?
    ensures var view := steps[k].view;
      && view.seqno in states[k].published && states[k].published[view.seqno] == view.fields
      && states[k].slot == Slot(view.seqno, view.fields)
  {
    RunInv(states, steps, width, k);
    assert Next(states[k], steps[k], states[k + 1]);
    assert states[k].reader.got == states[k].slot.words[..width] == states[k].slot.words;
  }

  /** A publication is never altered, and the sequence number never goes back. */
  lemma {:induction false} PublicationsStand(states: seq<State>, steps: seq<Step>, width: nat, a: nat, b: nat)
    requires Run(states, steps, width) && a <= b < |states|
    ensures forall q :: q in states[a].published ==>
      q in states[b].published && states[b].published[q] == states[a].published[q]
    ensures states[a].slot.seqno <= states[b].slot.seqno
  {
    if a < b {
      PublicationsStand(states, steps, width, a, b - 1);
      RunInv(states, steps, width, b - 1);
      assert Next(states[b - 1], steps[b - 1], states[b]);
      if steps[b - 1].StoreNext? {
        StoreInv(states[b - 1], states[b]);
      }
    }
  }

  /** The last store of a write program. */
  predicate Completes(states: seq<State>, steps: seq<Step>, k: nat)
    requires k < |steps| && k < |states|
  {
    steps[k].StoreNext? && states[k].writer.Writing? && |states[k].writer.todo| == 1
  }

  /** No number is ever published twice: of two completed writes, the later publishes the larger number. */
  lemma PublishedOnce(states: seq<State>, steps: seq<Step>, width: nat, a: nat, b: nat)
    requires Run(states, steps, width) && a < b < |steps|
    requires Completes(states, steps, a) && Completes(states, steps, b)
    ensures states[a + 1].slot.seqno % 2 == 0 && states[b + 1].slot.seqno % 2 == 0
    ensures states[a + 1].published == states[a].published[states[a + 1].slot.seqno := states[a].writer.fields]
    ensures states[a + 1].slot.seqno !in states[a].published
    ensures states[a + 1].slot.seqno < states[b + 1].slot.seqno
  {
    RunInv(states, steps, width, a);
    RunInv(states, steps, width, b);
    assert Next(states[a], steps[a], states[a + 1]) && Next(states[b], steps[b], states[b + 1]);
    hide Next, Run;
    StoreInv(states[a], states[a + 1]);
    StoreInv(states[b], states[b + 1]);
    PublicationsStand(states, steps, width, a + 1, b);
  }

  /** Two reads of one slot that return the same number return the same fields; a later one never an older number. */
  lemma ReadsAreOrdered(states: seq<State>, steps: seq<Step>, width: nat, a: nat, b: nat)
    requires Run(states, steps, width) && a < b < |steps| && steps[a].Accept? && steps[b].Accept?
    ensures steps[a].view.seqno <= steps[b].view.seqno
    ensures steps[a].view.seqno == steps[b].view.seqno ==> steps[a].view == steps[b].view
  {
    ReadsAreAtomic(states, steps, width, a);
    ReadsAreAtomic(states, steps, width, b);
    PublicationsStand(states, steps, width, a, b);
  }

  // ---------------------------------------------------------------- the codec

  lemma {:induction false} FieldStoresWrite(slot: Slot, fields: Words, from: nat, rest: seq<Store>)
    requires from <= |fields| == |slot.words| && slot.words[..from] == fields[..from]
    ensures slot.DoAll(FieldStores(fields, from) + rest) == Slot(slot.seqno, fields).DoAll(rest)
    decreases |fields| - from
  {
    var stores := FieldStores(fields, from) + rest;
    if from == |fields| {
      assert stores == rest;
      assert slot.words == slot.words[..from] == fields[..from] == fields;
    } else {
      assert stores[1..] == FieldStores(fields, from + 1) + rest;
      assert slot.Do(stores[0]).words[..from + 1] == fields[..from + 1];
      FieldStoresWrite(slot.Do(stores[0]), fields, from + 1, rest);
    }
  }

  /** A write that runs to its end leaves its fields under the next even number above what was there. */
  lemma WriteProgramCompletes(slot: Slot, fields: Words)
    requires |fields| == |slot.words|
    ensures slot.DoAll(WriteProgram(slot.seqno, fields)) == Slot(Marker(slot.seqno) + 1, fields)
    ensures (Marker(slot.seqno) + 1) % 2 == 0 && slot.seqno < Marker(slot.seqno) + 1
  {
    var program := WriteProgram(slot.seqno, fields);
    var last := [SetSeq(Marker(slot.seqno) + 1)];
    assert program[1..] == FieldStores(fields, 0) + last;
    var marked := slot.Do(program[0]);
    FieldStoresWrite(marked, fields, 0, last);
    var written := Slot(marked.seqno, fields);
    assert written.DoAll(last) == written.Do(last[0]).DoAll(last[1..]);
  }

  /** What the three loads of one read attempt saw. */
  datatype Attempt = Attempt(before: nat, mid: nat, fields: Words, after: nat) {
    predicate Stable() { before % 2 == 0 && before == after }
  }

  class SlotCodec {
    var seqno: nat
    const words: array<int>

    constructor (width: nat)
      ensures fresh(words) && Contents() == Slot(0, seq(width, i => 0))
    {
      seqno, words := 0, new int[width](i => 0);
      new;
      assert words[..] == seq(width, i => 0);
    }

    ghost function Contents(): Slot
      reads this, words
    {
      Slot(seqno, words[..])
    }

    method BeginWrite() returns (marker: nat)
      modifies this`seqno
      ensures marker == Marker(old(seqno)) && marker % 2 == 1
      ensures Contents() == old(Contents()).Do(SetSeq(marker))
    {
      marker := if seqno % 2 == 0 then seqno + 1 else seqno;
      seqno := marker;
    }

    method WriteFields(fields: Words)
      requires |fields| == words.Length
      modifies words
      ensures words[..] == fields
    {
      for i := 0 to |fields|
        invariant words[..i] == fields[..i]
      {
        words[i] := fields[i];
      }
    }

    method EndWrite(marker: nat)
      requires marker % 2 == 1
      modifies this`seqno
      ensures Contents() == old(Contents()).Do(SetSeq(marker + 1))
    {
      seqno := marker + 1;
    }

    /** One uninterrupted write does exactly the stores of its program. */
    method Write(fields: Words)
      requires |fields| == words.Length
      modifies this`seqno, words
      ensures Contents() == old(Contents()).DoAll(WriteProgram(old(seqno), fields))
      ensures seqno % 2 == 0 && seqno > old(seqno) && words[..] == fields
    {
      WriteProgramCompletes(Contents(), fields);
      var marker := BeginWrite();
      WriteFields(fields);
      EndWrite(marker);
    }

    /** Supervisor only, after the owner was reaped. */
    method Reclaim()
      modifies this`seqno, words
      ensures seqno % 2 == 0 && seqno > old(seqno)
      ensures forall i :: 0 <= i < words.Length ==> words[i] == 0
    {
      var zeros := seq(words.Length, i => 0);
      Write(zeros);
      assert forall i :: 0 <= i < words.Length ==> words[..][i] == zeros[i];
    }

    /**
     The bounded retry loop: `attempts` is what memory shows to each attempt. The first attempt that
     finds the number even and unchanged is returned; none means the slot did not stabilise.
     */
    static method Read(attempts: seq<Attempt>) returns (view: Option<View>)
      ensures view.None? <==> forall k :: 0 <= k < |attempts| ==> !attempts[k].Stable()
      ensures view.Some? ==> exists k ::
        && 0 <= k < |attempts| && attempts[k].Stable()
        && view.value == View(attempts[k].mid, attempts[k].fields)
        && forall j :: 0 <= j < k ==> !attempts[j].Stable()
    {
      for i := 0 to |attempts|
        invariant forall k :: 0 <= k < i ==> !attempts[k].Stable()
      {
        if attempts[i].before % 2 == 1 {
          continue;
        }
        if attempts[i].before == attempts[i].after {
          return Some(View(attempts[i].mid, attempts[i].fields));
        }
      }
      return None;
    }
  }
}
