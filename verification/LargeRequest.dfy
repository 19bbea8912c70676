/**
 Routing a request whose body is too large to read: the router cannot see which capabilities it needs,
 so it demands the largest capability set among the candidates, or rejects when there is no such set.
 */
module LargeRequest {
  import opened RouterTypes

  type Capability = string

  datatype Candidate = Candidate(
    routable: bool, model: Option<string>, capabilities: set<Capability>, active: nat)
  {
    predicate Supports(required: set<Capability>) {
      required <= capabilities
    }

    predicate NamesModel() {
      model.Some? && model.value != ""
    }
  }

  datatype Request = Request(
    bodyOverLimit: bool, required: set<Capability>, model: Option<string>, speechBatch: bool,
    hasModelHeader: bool, hasCapabilitiesHeader: bool)

  datatype Rejection = MixedModels | MixedBatchModels | MixedCapabilities | NoEligibleWorker

  datatype Result<T> = Ok(value: T) | Rejected(why: Rejection)

  // ---------------------------------------------------------------- who is eligible

  function Capable(workers: seq<Candidate>, required: set<Capability>): seq<Candidate> {
    if workers == [] then []
    else
      (if workers[0].routable && workers[0].Supports(required) then [workers[0]] else [])
      + Capable(workers[1..], required)
  }

  function OfModel(workers: seq<Candidate>, model: string): seq<Candidate> {
    if workers == [] then []
    else (if workers[0].model == Some(model) then [workers[0]] else []) + OfModel(workers[1..], model)
  }

  predicate AnyNamesModel(workers: seq<Candidate>) {
    exists w :: w in workers && w.NamesModel()
  }

  function ForModel(workers: seq<Candidate>, model: Option<string>): seq<Candidate> {
    if model.Some? && AnyNamesModel(workers) then OfModel(workers, model.value) else workers
  }

  function EligibleWorkers(workers: seq<Candidate>, required: set<Capability>, model: Option<string>): seq<Candidate> {
    ForModel(Capable(workers, required), model)
  }

  lemma {:induction false} CapableAre(workers: seq<Candidate>, required: set<Capability>)
    ensures forall w :: w in Capable(workers, required) <==> w in workers && w.routable && w.Supports(required)
  {
    if workers != [] {
      CapableAre(workers[1..], required);
    }
  }

  lemma {:induction false} OfModelAre(workers: seq<Candidate>, model: string)
    ensures forall w :: w in OfModel(workers, model) <==> w in workers && w.model == Some(model)
  {
    if workers != [] {
      OfModelAre(workers[1..], model);
    }
  }

  /** Some routable worker with the capabilities says which model it serves. */
  predicate ModelsKnown(workers: seq<Candidate>, required: set<Capability>) {
    exists w :: w in workers && w.routable && w.Supports(required) && w.NamesModel()
  }

  /** What a request may demand of the worker that serves it; models count only where some are known. */
  predicate Serves(workers: seq<Candidate>, required: set<Capability>, model: Option<string>, w: Candidate) {
    && w in workers && w.routable && (forall c :: c in required ==> c in w.capabilities)
    && (model.Some? && ModelsKnown(workers, required) ==> w.model == model)
  }

  /** The two filters, one after the other, leave exactly the workers that may serve the request. */
  lemma EligibleExactly(workers: seq<Candidate>, required: set<Capability>, model: Option<string>)
    ensures forall w :: w in EligibleWorkers(workers, required, model) <==> Serves(workers, required, model, w)
    ensures EligibleWorkers(workers, required, model) == [] <==> forall w :: !Serves(workers, required, model, w)
  {
    var capable := Capable(workers, required);
    CapableAre(workers, required);
    assert AnyNamesModel(capable) <==> ModelsKnown(workers, required);
    if model.Some? { OfModelAre(capable, model.value); }
    var eligible := EligibleWorkers(workers, required, model);
    if eligible != [] { assert eligible[0] in eligible; }
  }

  lemma {:induction false} CapableInOrder(first: seq<Candidate>, rest: seq<Candidate>, required: set<Capability>)
    ensures Capable(first + rest, required) == Capable(first, required) + Capable(rest, required)
  {
    if first == [] {
      assert first + rest == rest;
    } else {
      var head := if first[0].routable && first[0].Supports(required) then [first[0]] else [];
      assert (first + rest)[1..] == first[1..] + rest;
      CapableInOrder(first[1..], rest, required);
      assert head + (Capable(first[1..], required) + Capable(rest, required)) ==
        (head + Capable(first[1..], required)) + Capable(rest, required);
    }
  }

  lemma {:induction false} OfModelInOrder(first: seq<Candidate>, rest: seq<Candidate>, model: string)
    ensures OfModel(first + rest, model) == OfModel(first, model) + OfModel(rest, model)
  {
    if first == [] {
      assert first + rest == rest;
    } else {
      var head := if first[0].model == Some(model) then [first[0]] else [];
      assert (first + rest)[1..] == first[1..] + rest;
      OfModelInOrder(first[1..], rest, model);
      assert head + (OfModel(first[1..], model) + OfModel(rest, model)) ==
        (head + OfModel(first[1..], model)) + OfModel(rest, model);
    }
  }

  // ---------------------------------------------------------------- the rule for unreadable bodies

  function Models(workers: seq<Candidate>): set<Option<string>> {
    set w | w in workers :: w.model
  }

  /** Candidates whose models, if they differ, the request must tell apart. */
  function LargeCandidates(workers: seq<Candidate>, request: Request): Result<seq<Candidate>> {
    if !request.bodyOverLimit then Ok([])
    else
      var candidates := Capable(workers, request.required);
      if request.speechBatch && |Models(candidates) - {None}| > 1 && !request.hasModelHeader then Rejected(MixedBatchModels)
      else
        var chosen := ForModel(candidates, request.model);
        if request.model.None? && |Models(chosen)| > 1 then Rejected(MixedModels) else Ok(chosen)
  }

  lemma TwoMembers<T(!new)>(s: set<T>)
    ensures |s| > 1 <==> exists x, y :: x in s && y in s && x != y
  {
    if s != {} {
      var x :| x in s;
      if s - {x} != {} {
        var y :| y in s - {x};
        assert |s - {x}| > 0;
      } else {
        assert s == {x};
      }
    }
  }

  /** Two workers that could serve the request by capability alone differ in their model. */
  ghost predicate ModelsDiffer(workers: seq<Candidate>, required: set<Capability>, onlyNamed: bool) {
    exists v, w ::
      && Serves(workers, required, None, v) && Serves(workers, required, None, w) && v.model != w.model
      && (onlyNamed ==> v.model.Some? && w.model.Some?)
  }

  /** When an unreadable request is turned away for its model, and among whom it is routed if it is not. */
  lemma LargeCandidatesExactly(workers: seq<Candidate>, request: Request)
    requires request.bodyOverLimit
    ensures var r := LargeCandidates(workers, request);
      && (r == Rejected(MixedBatchModels) <==>
            request.speechBatch && !request.hasModelHeader && ModelsDiffer(workers, request.required, true))
      && (r == Rejected(MixedModels) <==>
            && r != Rejected(MixedBatchModels) && request.model.None?
            && ModelsDiffer(workers, request.required, false))
      && (r.Rejected? ==> r.why in {MixedBatchModels, MixedModels})
      && (r.Ok? ==> forall w :: w in r.value <==> Serves(workers, request.required, request.model, w))
  {
    var capable := Capable(workers, request.required);
    EligibleExactly(workers, request.required, None);
    EligibleExactly(workers, request.required, request.model);
    assert capable == EligibleWorkers(workers, request.required, None);
    hide Serves, Capable;
    TwoModels(workers, capable, request.required, true);
    TwoModels(workers, capable, request.required, false);
  }

  /** The models among these candidates, or only those that are named. */
  function ModelsOf(workers: seq<Candidate>, onlyNamed: bool): set<Option<string>> {
    if onlyNamed then Models(workers) - {None} else Models(workers)
  }

  lemma TwoModels(workers: seq<Candidate>, capable: seq<Candidate>, required: set<Capability>, onlyNamed: bool)
    requires forall w :: w in capable <==> Serves(workers, required, None, w)
    ensures |ModelsOf(capable, onlyNamed)| > 1 <==> ModelsDiffer(workers, required, onlyNamed)
  {
    hide Serves, ModelsOf;
    var models := ModelsOf(capable, onlyNamed);
    TwoMembers(models);
    if x, y :| x in models && y in models && x != y {
      ModelIsSomeones(capable, onlyNamed, x);
      ModelIsSomeones(capable, onlyNamed, y);
    }
    if ModelsDiffer(workers, required, onlyNamed) {
      var v, w :| Serves(workers, required, None, v) && Serves(workers, required, None, w) && v.model != w.model
        && (onlyNamed ==> v.model.Some? && w.model.Some?);
      ModelIsThere(capable, onlyNamed, v);
      ModelIsThere(capable, onlyNamed, w);
    }
  }

  lemma ModelIsSomeones(capable: seq<Candidate>, onlyNamed: bool, x: Option<string>)
    requires x in ModelsOf(capable, onlyNamed)
    ensures exists w :: w in capable && w.model == x && (onlyNamed ==> w.model.Some?)
  {
  }

  lemma ModelIsThere(capable: seq<Candidate>, onlyNamed: bool, w: Candidate)
    requires w in capable && (onlyNamed ==> w.model.Some?)
    ensures w.model in ModelsOf(capable, onlyNamed)
  {
  }

  function CapabilitySets(workers: seq<Candidate>): set<set<Capability>> {
    set w | w in workers :: w.capabilities
  }

  predicate IsMaximal(family: set<set<Capability>>, m: set<Capability>) {
    m in family && forall other :: other in family ==> !(m < other)
  }

  function MaximalSets(family: set<set<Capability>>): set<set<Capability>> {
    set m | m in family && IsMaximal(family, m)
  }

  lemma OnlyOne<T>(s: set<T>, x: T, y: T)
    requires |s| == 1 && x in s && y in s
    ensures x == y
  {
    assert |s - {x}| == 0;
    assert y !in s - {x};
  }

  /** The one element of a set that has just one. */
  function Only<T(==)>(s: set<T>): (x: T)
    requires |s| == 1
    ensures x in s
  {
    assert s != {};
    assert forall x, y :: x in s && y in s ==> x == y by {
      forall x, y | x in s && y in s ensures x == y { OnlyOne(s, x, y); }
    }
    var x :| x in s;
    x
  }

  /** What the request demands on top of what it was seen to need. */
  function ExtraCapabilities(candidates: seq<Candidate>, request: Request): Result<set<Capability>> {
    var family := CapabilitySets(candidates);
    if !request.bodyOverLimit || candidates == [] || request.hasCapabilitiesHeader || |family| <= 1 then Ok({})
    else if |MaximalSets(family)| == 1 then Ok(Only(MaximalSets(family)) - request.required)
    else Rejected(MixedCapabilities)
  }

  /** What the selection is finally asked for. */
  function FinallyRequired(workers: seq<Candidate>, request: Request): Result<set<Capability>> {
    match LargeCandidates(workers, request)
    case Rejected(why) => Rejected(why)
    case Ok(candidates) =>
      match ExtraCapabilities(candidates, request)
      case Rejected(why) => Rejected(why)
      case Ok(extra) => Ok(request.required + extra)
  }

  // ---------------------------------------------------------------- selection

  datatype Policy = RoundRobin | LeastRequest | RandomChoice

  class WorkerSelector {
    const policy: Policy
    var cursor: nat

    constructor (policy: Policy, offset: nat)
      ensures this.policy == policy && cursor == offset
    {
      this.policy, cursor := policy, offset;
    }

    /**
     A worker that may serve the request whenever there is one; under the least-request policy, one of the
     least loaded.
     */
    method Select(workers: seq<Candidate>, required: set<Capability>, model: Option<string>)
      returns (r: Result<Candidate>)
      modifies this
      ensures r.Ok? ==> Serves(workers, required, model, r.value)
      ensures r.Rejected? <==> forall w :: !Serves(workers, required, model, w)
      ensures r.Ok? && policy == LeastRequest ==>
        forall w :: Serves(workers, required, model, w) ==> r.value.active <= w.active
      ensures r.Ok? <==> EligibleWorkers(workers, required, model) != []
      ensures r.Ok? ==> r.value in EligibleWorkers(workers, required, model)
      ensures r.Rejected? ==> r.why == NoEligibleWorker && cursor == old(cursor)
      ensures r.Ok? && policy == LeastRequest ==>
        forall w :: w in EligibleWorkers(workers, required, model) ==> r.value.active <= w.active
      ensures r.Ok? && policy != RandomChoice ==> cursor == old(cursor) + 1
      ensures r.Ok? && policy == RoundRobin ==>
        r.value == EligibleWorkers(workers, required, model)[old(cursor) % |EligibleWorkers(workers, required, model)|]
    {
      hide Serves;
      EligibleExactly(workers, required, model);
      var candidates := EligibleWorkers(workers, required, model);
      if candidates == [] {
        return Rejected(NoEligibleWorker);
      }
      match policy
      case RoundRobin =>
        var w := SelectRoundRobin(candidates);
        return Ok(w);
      case LeastRequest =>
        var leastLoaded := LeastLoaded(candidates);
        var w := SelectRoundRobin(leastLoaded);
        return Ok(w);
      case RandomChoice =>
        var i: nat := *;
        return Ok(candidates[i % |candidates|]);
    }

    static method LeastLoaded(candidates: seq<Candidate>) returns (leastLoaded: seq<Candidate>)
      requires candidates != []
      ensures leastLoaded != []
      ensures forall w :: w in leastLoaded <==> w in candidates && forall c :: c in candidates ==> w.active <= c.active
    {
      var least := candidates[0].active;
      for i := 0 to |candidates|
        invariant exists w :: w in candidates && w.active == least
        invariant forall j :: 0 <= j < i ==> least <= candidates[j].active
      {
        if candidates[i].active < least {
          least := candidates[i].active;
        }
      }
      leastLoaded := [];
      for i := 0 to |candidates|
        invariant forall w :: w in leastLoaded <==> w in candidates[..i] && w.active == least
      {
        if candidates[i].active == least {
          leastLoaded := leastLoaded + [candidates[i]];
        }
      }
      assert candidates[..|candidates|] == candidates;
    }

    method SelectRoundRobin(candidates: seq<Candidate>) returns (w: Candidate)
      requires candidates != []
      modifies this
      ensures w in candidates && w == candidates[old(cursor) % |candidates|]
      ensures cursor == old(cursor) + 1
    {
      w := candidates[cursor % |candidates|];
      cursor := cursor + 1;
    }
  }

  // ---------------------------------------------------------------- why the rule is safe

  /** In a finite family every set lies below some maximal one. */
  lemma {:induction false} MaximalAbove(family: set<set<Capability>>, x: set<Capability>)
    requires x in family
    ensures exists m :: IsMaximal(family, m) && x <= m
    decreases |family|
  {
    if !IsMaximal(family, x) {
      var y :| y in family && x < y;
      MaximalAbove(family - {x}, y);
      var m :| IsMaximal(family - {x}, m) && y <= m;
      forall other | other in family ensures !(m < other) {
        if other == x { assert !(m < x); }
      }
      assert IsMaximal(family, m);
    }
  }

  /** A maximal set that is the only one is the greatest. */
  lemma UniqueMaximalIsGreatest(family: set<set<Capability>>, x: set<Capability>)
    requires |MaximalSets(family)| == 1 && x in family
    ensures Only(MaximalSets(family)) in family && x <= Only(MaximalSets(family))
  {
    MaximalAbove(family, x);
    var m :| IsMaximal(family, m) && x <= m;
    OnlyOne(MaximalSets(family), m, Only(MaximalSets(family)));
  }

  /** Demanding the greatest set keeps exactly the candidates that have it. */
  lemma DemandKeeps(
      workers: seq<Candidate>, required: set<Capability>, extra: set<Capability>, model: Option<string>, best: Candidate)
    requires best in EligibleWorkers(workers, required, model) && extra <= best.capabilities
    ensures best in EligibleWorkers(workers, required + extra, model)
    ensures forall w :: w in EligibleWorkers(workers, required + extra, model) ==>
      w in workers && w.Supports(required + extra)
  {
    CapableAre(workers, required);
    CapableAre(workers, required + extra);
    if model.Some? {
      OfModelAre(Capable(workers, required), model.value);
      OfModelAre(Capable(workers, required + extra), model.value);
    }
  }

  /**
   For every finite pool: a large request without a capabilities header is rejected, or meets an empty
   pool, or is served by a worker that has every capability any of its candidates has.
   */
  lemma SelectedCanDoWhatAnyCan(workers: seq<Candidate>, request: Request, chosen: Candidate)
    requires request.bodyOverLimit && !request.hasCapabilitiesHeader
    requires LargeCandidates(workers, request).Ok? && LargeCandidates(workers, request).value != []
    requires FinallyRequired(workers, request).Ok?
    ensures var eligible := EligibleWorkers(workers, FinallyRequired(workers, request).value, request.model);
      && eligible != []
      && (chosen in eligible ==>
            forall c :: c in LargeCandidates(workers, request).value ==> c.capabilities <= chosen.capabilities)
  {
    var candidates := LargeCandidates(workers, request).value;
    assert candidates == EligibleWorkers(workers, request.required, request.model);
    var family := CapabilitySets(candidates);
    var extra := ExtraCapabilities(candidates, request).value;
    assert candidates[0].capabilities in family;
    if |family| <= 1 {
      assert |family| == 1 by { assert family != {}; }
      DemandKeeps(workers, request.required, extra, request.model, candidates[0]);
      assert request.required + extra == request.required;
      forall c | c in candidates && chosen in candidates ensures c.capabilities <= chosen.capabilities {
        assert c.capabilities in family && chosen.capabilities in family;
        OnlyOne(family, c.capabilities, chosen.capabilities);
      }
    } else {
      UniqueMaximalIsGreatest(family, candidates[0].capabilities);
      var greatest := Only(MaximalSets(family));
      var best :| best in candidates && best.capabilities == greatest;
      DemandKeeps(workers, request.required, extra, request.model, best);
      forall c | c in candidates && chosen in EligibleWorkers(workers, request.required + extra, request.model)
        ensures c.capabilities <= chosen.capabilities
      {
        assert c.capabilities in family;
        UniqueMaximalIsGreatest(family, c.capabilities);
        assert chosen.Supports(request.required + extra);
      }
    }
  }

  /** The rule rejects for capabilities exactly when no candidate has everything the others have. */
  lemma RejectsOnlyWithoutAGreatest(workers: seq<Candidate>, request: Request)
    requires request.bodyOverLimit && !request.hasCapabilitiesHeader
    requires LargeCandidates(workers, request).Ok?
    ensures var candidates := LargeCandidates(workers, request).value;
      FinallyRequired(workers, request).Ok? <==>
      candidates == [] || exists best :: best in candidates && forall c :: c in candidates ==> c.capabilities <= best.capabilities
  {
    var candidates := LargeCandidates(workers, request).value;
    var family := CapabilitySets(candidates);
    if candidates != [] {
      if ExtraCapabilities(candidates, request).Ok? {
        GreatestCandidate(candidates, request);
      }
      if best :| best in candidates && forall c :: c in candidates ==> c.capabilities <= best.capabilities {
        GreatestIsOnlyMaximal(family, best.capabilities);
      }
    }
  }

  /** A readable request, or one that states its capabilities, is asked for nothing more. */
  lemma OnlyTheUnreadableDemandMore(workers: seq<Candidate>, request: Request)
    ensures !request.bodyOverLimit ==> FinallyRequired(workers, request) == Ok(request.required)
    ensures request.hasCapabilitiesHeader && LargeCandidates(workers, request).Ok? ==>
      FinallyRequired(workers, request) == Ok(request.required)
    ensures LargeCandidates(workers, request).Rejected? ==>
      FinallyRequired(workers, request) == Rejected(LargeCandidates(workers, request).why)
  {
    assert request.required + {} == request.required;
  }

  lemma GreatestIsOnlyMaximal(family: set<set<Capability>>, greatest: set<Capability>)
    requires greatest in family && forall m :: m in family ==> m <= greatest
    ensures MaximalSets(family) == {greatest}
  {
    assert IsMaximal(family, greatest);
    forall m | IsMaximal(family, m) ensures m == greatest {
      assert !(m < greatest);
    }
  }

  lemma GreatestCandidate(candidates: seq<Candidate>, request: Request)
    requires request.bodyOverLimit && !request.hasCapabilitiesHeader && candidates != []
    requires ExtraCapabilities(candidates, request).Ok?
    ensures exists best :: best in candidates && forall c :: c in candidates ==> c.capabilities <= best.capabilities
  {
    var family := CapabilitySets(candidates);
    assert candidates[0].capabilities in family;
    if |family| <= 1 {
      forall c | c in candidates ensures c.capabilities <= candidates[0].capabilities {
        assert c.capabilities in family;
        OnlyOne(family, c.capabilities, candidates[0].capabilities);
      }
    } else {
      UniqueMaximalIsGreatest(family, candidates[0].capabilities);
      var best :| best in candidates && best.capabilities == Only(MaximalSets(family));
      forall c | c in candidates ensures c.capabilities <= best.capabilities {
        assert c.capabilities in family;
        UniqueMaximalIsGreatest(family, c.capabilities);
      }
    }
  }
}
