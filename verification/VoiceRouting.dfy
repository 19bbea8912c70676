/**
 Which voice names must be served by the one worker that stores uploaded voices. The single-process router
 caches that worker's registry (the multi-process one routes without it); the functions say what each event
 does to the cache, the class keeps it.
 */
module VoiceRouting {
  import opened RouterTypes

  /** Voice names as they are compared: trimmed and in lower case. */
  type Name = string

  const DEFAULT_VOICE: Name := "default"

  datatype Mutation = Upload(name: Name) | Delete(name: Name)

  /** A worker as the owner lookup sees it. */
  datatype Candidate = Candidate(url: WorkerId, routable: bool, canOwn: bool)

  datatype Voice = Voice(
    ownerUrl: Option<WorkerId>, uploaded: set<Name>, active: bool, hydrated: bool, dirty: bool,
    reconciling: bool, inflight: nat, generation: nat, refreshRequested: bool)
  {
    /** The cache speaks for the owner: nothing is under way and nothing is in doubt. */
    predicate Trusted() {
      hydrated && !dirty && inflight == 0
    }
  }

  predicate Lists(workers: seq<Candidate>, url: WorkerId) {
    exists i :: 0 <= i < |workers| && workers[i].url == url
  }

  /** The first worker with this url. */
  predicate FirstListed(workers: seq<Candidate>, url: WorkerId, i: nat) {
    i < |workers| && workers[i].url == url && forall j :: 0 <= j < i ==> workers[j].url != url
  }

  predicate CanBecomeOwner(c: Candidate) {
    c.routable && c.canOwn
  }

  /** `url` is that of the first worker in the list that may become the owner. */
  predicate FirstCapable(workers: seq<Candidate>, url: WorkerId) {
    exists i :: 0 <= i < |workers| && workers[i].url == url && CanBecomeOwner(workers[i])
                && forall j :: 0 <= j < i ==> !CanBecomeOwner(workers[j])
  }

  function OnRequestRefresh(v: Voice): Voice {
    if v.active && !v.reconciling then v.(refreshRequested := true) else v
  }

  function OnActivate(v: Voice): Voice {
    if v.active then v else OnRequestRefresh(v.(active := true))
  }

  function OnBegin(v: Voice): Voice {
    v.(active := true, inflight := v.inflight + 1, generation := v.generation + 1)
  }

  function OnDispatched(v: Voice): Voice {
    v.(dirty := true)
  }

  function OnUncertain(v: Voice): Voice {
    v.(active := true, dirty := true, refreshRequested := true)
  }

  function OnApply(v: Voice, m: Mutation): Voice {
    v.(uploaded := if m.Upload? then v.uploaded + {m.name} else v.uploaded - {m.name})
  }

  function OnEnd(v: Voice): Voice
    requires v.inflight > 0
  {
    v.(inflight := v.inflight - 1, refreshRequested := v.refreshRequested || v.inflight == 1)
  }

  /** A fetched registry is taken only if no mutation began since the fetch did, and none is under way. */
  function OnFetched(v: Voice, generation: nat, names: set<Name>): Voice {
    if v.generation != generation || v.inflight > 0 then v.(reconciling := false)
    else v.(uploaded := names, hydrated := true, dirty := false, reconciling := false)
  }

  function AsksRegistry(names: set<Name>, bodyOverLimit: bool): bool {
    !bodyOverLimit && names - {DEFAULT_VOICE} != {}
  }

  /** Once a registry is asked for, routing becomes active, and an untrusted cache asks for a refresh. */
  function OnAsked(v: Voice): Voice {
    if v.Trusted() then OnActivate(v) else OnRequestRefresh(OnActivate(v))
  }

  function NeedsOwner(v: Voice, names: set<Name>, bodyOverLimit: bool): bool {
    bodyOverLimit || (names - {DEFAULT_VOICE} != {} && (!v.Trusted() || (names - {DEFAULT_VOICE}) * v.uploaded != {}))
  }

  lemma ActivatingKeepsTrust(v: Voice)
    ensures var w := OnActivate(v);
      && w.hydrated == v.hydrated && w.dirty == v.dirty && w.inflight == v.inflight
      && w.uploaded == v.uploaded && w.ownerUrl == v.ownerUrl
    ensures OnRequestRefresh(OnActivate(v)).ownerUrl == v.ownerUrl
  {
  }

  lemma NotAsked(v: Voice, names: set<Name>, bodyOverLimit: bool)
    ensures bodyOverLimit ==> NeedsOwner(v, names, bodyOverLimit)
    ensures !bodyOverLimit && names - {DEFAULT_VOICE} == {} ==> !NeedsOwner(v, names, bodyOverLimit)
    ensures OnAsked(v).ownerUrl == v.ownerUrl
  {
  }

  class VoiceRoutingState {
    var ownerUrl: Option<WorkerId>
    var uploadedNames: set<Name>
    var isActive: bool
    var isHydrated: bool
    var isRegistryDirty: bool
    var isReconciling: bool
    var mutationsInflight: nat
    var registryGeneration: nat
    var refreshRequested: bool

    constructor (ownerUrl: Option<WorkerId>)
      ensures View() == Voice(ownerUrl, {}, false, false, false, false, 0, 0, false)
    {
      this.ownerUrl, uploadedNames := ownerUrl, {};
      isActive, isHydrated, isRegistryDirty, isReconciling := false, false, false, false;
      mutationsInflight, registryGeneration, refreshRequested := 0, 0, false;
    }

    ghost function View(): Voice
      reads this
    {
      Voice(ownerUrl, uploadedNames, isActive, isHydrated, isRegistryDirty, isReconciling,
            mutationsInflight, registryGeneration, refreshRequested)
    }

    method Owner(workers: seq<Candidate>) returns (owner: Option<Candidate>)
      ensures owner.Some? <==> ownerUrl.Some? && Lists(workers, ownerUrl.value)
      ensures owner.Some? ==> owner.value in workers && ownerUrl == Some(owner.value.url)
      ensures owner.Some? ==> exists i: nat :: FirstListed(workers, ownerUrl.value, i) && owner.value == workers[i]
    {
      if ownerUrl.None? {
        return None;
      }
      for i := 0 to |workers|
        invariant forall j :: 0 <= j < i ==> workers[j].url != ownerUrl.value
      {
        if workers[i].url == ownerUrl.value {
          assert FirstListed(workers, ownerUrl.value, i);
          return Some(workers[i]);
        }
      }
      return None;
    }

    /** An owner is assigned once, to the first worker that may own voices, and never reassigned. */
    method EnsureOwner(workers: seq<Candidate>) returns (owner: Option<Candidate>)
      modifies this`ownerUrl
      ensures old(ownerUrl).Some? ==> ownerUrl == old(ownerUrl)
      ensures old(ownerUrl).None? && ownerUrl.Some? ==> FirstCapable(workers, ownerUrl.value)
      ensures old(ownerUrl).None? && ownerUrl.None? ==> forall c :: c in workers ==> !CanBecomeOwner(c)
      ensures owner.Some? <==> ownerUrl.Some? && Lists(workers, ownerUrl.value)
      ensures owner.Some? ==> owner.value in workers && ownerUrl == Some(owner.value.url)
    {
      owner := Owner(workers);
      if owner.Some? || ownerUrl.Some? {
        return;
      }
      for i := 0 to |workers|
        invariant ownerUrl.None? && owner.None?
        invariant forall j :: 0 <= j < i ==> !CanBecomeOwner(workers[j])
      {
        if workers[i].routable && workers[i].canOwn {
          ownerUrl := Some(workers[i].url);
          return Some(workers[i]);
        }
      }
    }

    method RequestRefresh()
      modifies this
      ensures View() == OnRequestRefresh(old(View()))
      ensures isActive == old(isActive) && (isActive ==> isReconciling || refreshRequested)
    {
      if isActive && !isReconciling {
        refreshRequested := true;
      }
    }

    method Activate()
      modifies this
      ensures View() == OnActivate(old(View()))
      ensures isActive && (!old(isActive) ==> isReconciling || refreshRequested)
    {
      if isActive {
        return;
      }
      isActive := true;
      RequestRefresh();
    }

    method MarkUncertain()
      modifies this
      ensures View() == OnUncertain(old(View()))
      ensures isActive && isRegistryDirty && refreshRequested && !View().Trusted()
    {
      isActive := true;
      isRegistryDirty := true;
      refreshRequested := true;
    }

    method BeginMutation()
      modifies this
      ensures View() == OnBegin(old(View()))
      ensures isActive && mutationsInflight == old(mutationsInflight) + 1 && registryGeneration > old(registryGeneration)
    {
      isActive := true;
      mutationsInflight := mutationsInflight + 1;
      registryGeneration := registryGeneration + 1;
    }

    method MarkMutationDispatched()
      requires mutationsInflight > 0
      modifies this
      ensures View() == OnDispatched(old(View()))
      ensures isRegistryDirty
    {
      isRegistryDirty := true;
    }

    method EndMutation()
      requires mutationsInflight > 0
      modifies this
      ensures View() == OnEnd(old(View()))
      ensures mutationsInflight == old(mutationsInflight) - 1 && (mutationsInflight == 0 ==> refreshRequested)
    {
      mutationsInflight := mutationsInflight - 1;
      if mutationsInflight == 0 {
        refreshRequested := true;
      }
    }

    method Apply(m: Mutation)
      requires mutationsInflight > 0
      modifies this
      ensures View() == OnApply(old(View()), m)
      ensures forall name :: name in uploadedNames <==> if name == m.name then m.Upload? else name in old(uploadedNames)
    {
      if m.Upload? {
        uploadedNames := uploadedNames + {m.name};
      } else {
        uploadedNames := uploadedNames - {m.name};
      }
    }

    /** May assign the owner on the way; without one, every worker will do. */
    method RequiresOwner(workers: seq<Candidate>, names: set<Name>, bodyOverLimit: bool) returns (required: bool)
      modifies this
      ensures old(ownerUrl).Some? ==> ownerUrl == old(ownerUrl)
      ensures old(ownerUrl).None? && ownerUrl.Some? ==> FirstCapable(workers, ownerUrl.value)
      ensures var hasOwner := ownerUrl.Some? && Lists(workers, ownerUrl.value);
        var before := old(View()).(ownerUrl := ownerUrl);
        && required == (hasOwner && NeedsOwner(before, names, bodyOverLimit))
        && View() == (if hasOwner && AsksRegistry(names, bodyOverLimit) then OnAsked(before) else before)
        && (hasOwner && !bodyOverLimit && names - {DEFAULT_VOICE} != {} ==>
              isActive && (!before.Trusted() ==> isReconciling || refreshRequested))
    {
      hide Lists, FirstCapable, OnAsked, NeedsOwner;
      var owner := EnsureOwner(workers);
      ghost var before := View();
      if owner.None? {
        return false;
      }
      NotAsked(before, names, bodyOverLimit);
      if bodyOverLimit {
        return true;
      }
      if names - {DEFAULT_VOICE} == {} {
        return false;
      }
      required := AskRegistry(names);
    }

    /** Some name is not the default: the cache decides, if it can be trusted. */
    method AskRegistry(names: set<Name>) returns (required: bool)
      requires names - {DEFAULT_VOICE} != {}
      modifies this
      ensures View() == OnAsked(old(View()))
      ensures isActive && (!old(View()).Trusted() ==> isReconciling || refreshRequested)
      ensures required == NeedsOwner(old(View()), names, false)
    {
      hide OnActivate, OnRequestRefresh;
      ghost var before := View();
      Activate();
      ActivatingKeepsTrust(before);
      if !isHydrated || isRegistryDirty || mutationsInflight > 0 {
        assert !before.Trusted();
        RequestRefresh();
        return true;
      }
      assert before.Trusted();
      return (names - {DEFAULT_VOICE}) * uploadedNames != {};
    }

    /** The first half of a reconciliation, up to the moment the fetch is awaited. */
    method ReconcileStart(workers: seq<Candidate>) returns (fetching: bool, generation: nat, retry: bool)
      modifies this
      ensures fetching <==>
        && old(mutationsInflight) == 0 && ownerUrl.Some?
        && exists i: nat :: FirstListed(workers, ownerUrl.value, i) && workers[i].routable
      ensures generation == old(registryGeneration)
      ensures View() == if fetching then old(View()).(reconciling := true) else old(View())
      ensures !fetching ==> (retry <==> mutationsInflight == 0 && (!isHydrated || isRegistryDirty))
    {
      generation := registryGeneration;
      if mutationsInflight > 0 {
        return false, generation, false;
      }
      var owner := Owner(workers);
      assert ownerUrl.Some? ==>
        forall i: nat :: FirstListed(workers, ownerUrl.value, i) ==> workers[i].url == ownerUrl.value;
      if owner.None? || !owner.value.routable {
        return false, generation, !isHydrated || isRegistryDirty;
      }
      isReconciling := true;
      return true, generation, false;
    }

    /** The second half: `names` is what the owner answered, or nothing when the fetch failed. */
    method ReconcileFinish(generation: nat, names: Option<set<Name>>) returns (retry: bool)
      modifies this
      ensures View() == if names.Some? then OnFetched(old(View()), generation, names.value)
                        else old(View()).(reconciling := false)
      ensures retry <==> names.None? || old(registryGeneration) != generation || old(mutationsInflight) > 0
      ensures !isReconciling
      ensures !retry ==> uploadedNames == names.value && View().Trusted()
      ensures retry ==>
        uploadedNames == old(uploadedNames) && isHydrated == old(isHydrated) && isRegistryDirty == old(isRegistryDirty)
    {
      retry := true;
      if names.Some? && registryGeneration == generation && mutationsInflight == 0 {
        uploadedNames := names.value;
        isHydrated := true;
        isRegistryDirty := false;
        retry := false;
      }
      isReconciling := false;
    }
  }
}
/**
 The cache and the owner's registry, over every interleaving of mutations, their lost or unreadable
 outcomes, and registry fetches. The registry changes only while some mutation through the router is
 under way and may have reached the owner.
 */
module VoiceAgreement {
  import opened RouterTypes
  import opened VoiceRouting

  /** How far one mutation request got. */
  datatype Phase = Begun | Sending | Dispatched | Finished

  /** `read` is the registry as the owner saw it when it answered. */
  datatype Fetch = Fetch(generation: nat, read: Option<set<Name>>)

  datatype State = State(
    voice: Voice, registry: set<Name>, mutations: map<nat, Phase>, fetch: Option<Fetch>)

  datatype Step =
    | Assign(url: WorkerId, registry: set<Name>)
    | Asked
    | BeginStep(id: nat)
    | SendStep(id: nat)
    | TakesEffect(id: nat, registry: set<Name>)
    | NeverSent(id: nat)
    | SendLost(id: nat)
    | HeadersSeen(id: nat)
    | BodyUnclear(id: nat)
    | Committed(id: nat, m: Mutation)
    | Refused(id: nat)
    | EndStep(id: nat)
    | FetchStart
    | OwnerAnswers
    | FetchDone
    | FetchFailed

  predicate At(s: State, id: nat, phase: Phase) {
    id in s.mutations && s.mutations[id] == phase
  }

  function Move(s: State, id: nat, phase: Phase, voice: Voice): State {
    s.(mutations := s.mutations[id := phase], voice := voice)
  }

  predicate MutationStep(s: State, step: Step, t: State) {
    match step
    case BeginStep(id) => id !in s.mutations && t == Move(s, id, Begun, OnBegin(s.voice))
    // The owner takes every mutation, so it is assigned before one is sent.
    case SendStep(id) => At(s, id, Begun) && s.voice.ownerUrl.Some? && t == Move(s, id, Sending, s.voice)
    case TakesEffect(id, registry) =>
      (At(s, id, Sending) || At(s, id, Dispatched)) && t == s.(registry := registry)
    // Refused before it left the router: no owner, or its connection pool was exhausted.
    case NeverSent(id) => At(s, id, Begun) && t == Move(s, id, Finished, s.voice)
    case SendLost(id) => At(s, id, Sending) && t == Move(s, id, Finished, OnUncertain(s.voice))
    case HeadersSeen(id) => At(s, id, Sending) && t == Move(s, id, Dispatched, OnDispatched(s.voice))
    case BodyUnclear(id) => At(s, id, Dispatched) && t == Move(s, id, Finished, OnUncertain(s.voice))
    case Committed(id, m) => At(s, id, Dispatched) && t == Move(s, id, Finished, OnApply(s.voice, m))
    case Refused(id) => At(s, id, Dispatched) && t == Move(s, id, Finished, s.voice)
    case EndStep(id) =>
      && At(s, id, Finished) && s.voice.inflight > 0
      && t == s.(mutations := s.mutations - {id}, voice := OnEnd(s.voice))
    case _ => false
  }

  predicate FetchStep(s: State, step: Step, t: State) {
    match step
    case FetchStart =>
      && s.fetch.None? && s.voice.inflight == 0 && s.voice.ownerUrl.Some?
      && t == s.(voice := s.voice.(reconciling := true), fetch := Some(Fetch(s.voice.generation, None)))
    case OwnerAnswers =>
      s.fetch.Some? && s.fetch.value.read.None? && t == s.(fetch := Some(Fetch(s.fetch.value.generation, Some(s.registry))))
    case FetchDone =>
      && s.fetch.Some? && s.fetch.value.read.Some?
      && t == s.(voice := OnFetched(s.voice, s.fetch.value.generation, s.fetch.value.read.value), fetch := None)
    case FetchFailed => s.fetch.Some? && t == s.(voice := s.voice.(reconciling := false), fetch := None)
    case _ => false
  }

  predicate RoutingStep(s: State, step: Step, t: State) {
    match step
    case Assign(url, registry) =>
      s.voice.ownerUrl.None? && t == s.(voice := s.voice.(ownerUrl := Some(url)), registry := registry)
    case Asked => t == s.(voice := OnAsked(s.voice))
    case _ => false
  }

  predicate Next(s: State, step: Step, t: State) {
    MutationStep(s, step, t) || FetchStep(s, step, t) || RoutingStep(s, step, t)
  }

  predicate Init(s: State) {
    && s.voice == Voice(s.voice.ownerUrl, {}, false, false, false, false, 0, 0, false)
    && s.mutations == map[] && s.fetch.None?
  }

  predicate Run(states: seq<State>, steps: seq<Step>) {
    && |states| == |steps| + 1 && Init(states[0])
    && forall k :: 0 <= k < |steps| ==> Next(states[k], steps[k], states[k + 1])
  }

  predicate NoneSending(s: State) {
    forall id :: id in s.mutations ==> !s.mutations[id].Sending?
  }

  ghost predicate Inv(s: State) {
    && s.voice.inflight == |s.mutations|
    && (forall id :: At(s, id, Dispatched) ==> s.voice.dirty)
    && (s.voice.hydrated && !s.voice.dirty && NoneSending(s) ==> s.voice.uploaded == s.registry)
    && (s.voice.ownerUrl.None? ==>
          !s.voice.hydrated && s.fetch.None? && forall id :: id in s.mutations ==> s.mutations[id].Begun? || s.mutations[id].Finished?)
    && (s.fetch.Some? ==> s.fetch.value.generation <= s.voice.generation)
    && (s.fetch.Some? && s.fetch.value.generation == s.voice.generation ==>
          s.mutations == map[] && (s.fetch.value.read.Some? ==> s.fetch.value.read.value == s.registry))
  }

  lemma MutationStepInv(s: State, step: Step, t: State)
    requires Inv(s) && MutationStep(s, step, t)
    ensures Inv(t)
  {
    if step.BeginStep? {
      assert t.mutations.Keys == s.mutations.Keys + {step.id};
    } else if step.EndStep? {
      assert t.mutations.Keys == s.mutations.Keys - {step.id};
      assert At(s, step.id, Finished);
    } else {
      assert t.mutations.Keys == s.mutations.Keys;
      assert step.id in s.mutations;
    }
    if step.SendStep? {
      assert t.mutations[step.id].Sending?;
    } else if !step.TakesEffect? && !step.SendLost? && !step.HeadersSeen? {
      forall id | NoneSending(t) && id in s.mutations ensures !s.mutations[id].Sending? {
        assert id in t.mutations || step.EndStep?;
        assert id in t.mutations && (step.BeginStep? || step.EndStep? || id != step.id) ==> t.mutations[id] == s.mutations[id];
      }
    }
    forall id | At(t, id, Dispatched) ensures t.voice.dirty {
      assert At(s, id, Dispatched) || step.HeadersSeen?;
    }
  }

  lemma FetchStepInv(s: State, step: Step, t: State)
    requires Inv(s) && FetchStep(s, step, t)
    ensures Inv(t)
  {
    assert |s.mutations| == 0 ==> s.mutations == map[];
    assert t.mutations == s.mutations;
    assert forall id :: At(t, id, Dispatched) ==> At(s, id, Dispatched);
  }

  lemma RoutingStepInv(s: State, step: Step, t: State)
    requires Inv(s) && RoutingStep(s, step, t)
    ensures Inv(t)
  {
    assert t.mutations == s.mutations;
    assert forall id :: At(t, id, Dispatched) ==> At(s, id, Dispatched);
  }

  lemma InitInv(s: State)
    requires Init(s)
    ensures Inv(s)
  {
  }

  lemma NextInv(s: State, step: Step, t: State)
    requires Inv(s) && Next(s, step, t)
    ensures Inv(t)
  {
    hide Inv, MutationStep, FetchStep, RoutingStep;
    if MutationStep(s, step, t) {
      MutationStepInv(s, step, t);
    } else if FetchStep(s, step, t) {
      FetchStepInv(s, step, t);
    } else {
      RoutingStepInv(s, step, t);
    }
  }

  lemma {:induction false} RunInv(states: seq<State>, steps: seq<Step>, k: nat)
    requires Run(states, steps) && k < |states|
    ensures Inv(states[k])
  {
    hide Inv, Next, Init;
    if k == 0 {
      InitInv(states[0]);
    } else {
      RunInv(states, steps, k - 1);
      NextInv(states[k - 1], steps[k - 1], states[k]);
    }
  }

  /**
   The guarantee: with an owner assigned, a request is let go to other workers only if none of its
   voices, the default aside, is in the owner's registry at that moment.
   */
  lemma NoUploadedVoiceEscapes(states: seq<State>, steps: seq<Step>, k: nat, names: set<Name>, bodyOverLimit: bool)
    requires Run(states, steps) && k < |states|
    requires !NeedsOwner(states[k].voice, names, bodyOverLimit)
    ensures forall name :: name in names && name in states[k].registry ==> name == DEFAULT_VOICE
  {
    RunInv(states, steps, k);
    var voice, asked := states[k].voice, names - {DEFAULT_VOICE};
    forall name | name in names && name in states[k].registry && name != DEFAULT_VOICE ensures name in asked {
    }
    if asked != {} {
      assert states[k].mutations == map[] && NoneSending(states[k]);
      forall name | name in asked ensures name !in voice.uploaded {
        assert name in voice.uploaded ==> name in asked * voice.uploaded;
      }
    }
  }

  /** And a trusted cache sends no request to the owner for nothing. */
  lemma TrustedAnswersExactly(states: seq<State>, steps: seq<Step>, k: nat, names: set<Name>)
    requires Run(states, steps) && k < |states| && states[k].voice.Trusted()
    ensures NeedsOwner(states[k].voice, names, false) <==>
      exists name :: name in names && name != DEFAULT_VOICE && name in states[k].registry
  {
    RunInv(states, steps, k);
    var voice, asked := states[k].voice, names - {DEFAULT_VOICE};
    assert states[k].mutations == map[];
    if asked * voice.uploaded != {} {
      var name :| name in asked * voice.uploaded;
      assert name in names && name != DEFAULT_VOICE && name in states[k].registry;
    }
    forall name | name in names && name != DEFAULT_VOICE && name in states[k].registry ensures asked * voice.uploaded != {} {
      assert name in asked * voice.uploaded;
    }
  }

  /** A registry read before a mutation began is never taken, however late it arrives. */
  lemma StaleFetchIsDropped(states: seq<State>, steps: seq<Step>, a: nat, b: nat)
    requires Run(states, steps) && a < b < |steps|
    requires steps[a].BeginStep? && states[a].fetch.Some? && steps[b].FetchDone?
    requires forall k :: a < k < b ==> !steps[k].FetchDone? && !steps[k].FetchFailed?
    ensures states[b + 1].voice == states[b].voice.(reconciling := false)
  {
    SameFetch(states, steps, a, b);
    assert Next(states[a], steps[a], states[a + 1]) && Next(states[b], steps[b], states[b + 1]);
    RunInv(states, steps, a);
  }

  /** And a fetch during which no mutation begins is taken: the cache is trusted and is the owner's registry. */
  lemma UndisturbedFetchIsTaken(states: seq<State>, steps: seq<Step>, a: nat, b: nat)
    requires Run(states, steps) && a < b < |steps| && steps[a].FetchStart? && steps[b].FetchDone?
    requires forall k :: a < k < b ==> !steps[k].BeginStep? && !steps[k].FetchDone? && !steps[k].FetchFailed?
    ensures states[b + 1].voice.Trusted() && states[b + 1].voice.uploaded == states[b + 1].registry
  {
    NoneBegan(states, steps, a, b);
    RunInv(states, steps, b);
    RunInv(states, steps, b + 1);
    assert Next(states[b], steps[b], states[b + 1]);
  }

  lemma {:induction false} NoneBegan(states: seq<State>, steps: seq<Step>, a: nat, b: nat)
    requires Run(states, steps) && a < b < |states| && steps[a].FetchStart?
    requires forall k :: a < k < b ==> !steps[k].BeginStep? && !steps[k].FetchDone? && !steps[k].FetchFailed?
    ensures states[b].fetch.Some? && states[b].fetch.value.generation == states[b].voice.generation
  {
    assert Next(states[b - 1], steps[b - 1], states[b]);
    if b > a + 1 {
      NoneBegan(states, steps, a, b - 1);
    }
  }

  lemma {:induction false} SameFetch(states: seq<State>, steps: seq<Step>, a: nat, b: nat)
    requires Run(states, steps) && a < b < |states| && steps[a].BeginStep? && states[a].fetch.Some?
    requires forall k :: a < k < b ==> !steps[k].FetchDone? && !steps[k].FetchFailed?
    ensures states[b].fetch.Some? && states[b].fetch.value.generation == states[a].fetch.value.generation
    ensures states[a].voice.generation < states[b].voice.generation
  {
    assert Next(states[b - 1], steps[b - 1], states[b]);
    if b > a + 1 {
      SameFetch(states, steps, a, b - 1);
    }
  }
}
