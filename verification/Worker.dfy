/** The mutable worker record kept by the control plane's registry and by every data plane's view. */
module Workers {
  import opened RouterTypes

  type ServiceClass = string

  datatype Kind = Routed | Successful | Failed

  /** The counters a worker reports: three totals, and the same three per service class. */
  datatype CounterKey = Overall(kind: Kind) | ByClass(kind: Kind, serviceClass: ServiceClass)

  datatype Config = Config(model: Option<string>, capabilities: set<string>)

  function Get(m: map<CounterKey, nat>, key: CounterKey): nat {
    if key in m then m[key] else 0
  }

  function Bump(m: map<CounterKey, nat>, key: CounterKey): map<CounterKey, nat> {
    m[key := Get(m, key) + 1]
  }

  function Recorded(m: map<CounterKey, nat>, ok: bool, c: ServiceClass): map<CounterKey, nat> {
    var routed := Bump(Bump(m, Overall(Routed)), ByClass(Routed, c));
    if ok then Bump(Bump(routed, Overall(Successful)), ByClass(Successful, c))
    else Bump(Bump(routed, Overall(Failed)), ByClass(Failed, c))
  }

  /** Every routed request is counted once as a success or a failure, in total and in its class. */
  ghost predicate Balanced(m: map<CounterKey, nat>) {
    && Get(m, Overall(Routed)) == Get(m, Overall(Successful)) + Get(m, Overall(Failed))
    && (forall c :: Get(m, ByClass(Routed, c)) == Get(m, ByClass(Successful, c)) + Get(m, ByClass(Failed, c)))
    && (forall k, c :: Get(m, ByClass(k, c)) <= Get(m, Overall(k)))
  }

  lemma RecordingKeepsBalance(m: map<CounterKey, nat>, ok: bool, c: ServiceClass)
    requires Balanced(m)
    ensures Balanced(Recorded(m, ok, c))
    ensures forall key :: Get(m, key) <= Get(Recorded(m, ok, c), key)
  {
    var outcome := if ok then Successful else Failed;
    forall key
      ensures Get(Recorded(m, ok, c), key) == Get(m, key) +
        if key in {Overall(Routed), ByClass(Routed, c), Overall(outcome), ByClass(outcome, c)} then 1 else 0
    {
    }
  }

  /** A worker that routed nothing has nothing to report. */
  lemma NothingRouted(m: map<CounterKey, nat>, key: CounterKey)
    requires Balanced(m) && Get(m, Overall(Routed)) == 0
    ensures Get(m, key) == 0
  {
    assert key.kind.Routed? || key.kind.Successful? || key.kind.Failed?;
    if key.ByClass? {
      assert Get(m, ByClass(key.kind, key.serviceClass)) <= Get(m, Overall(key.kind));
    }
  }

  class Worker {
    const url: WorkerId
    var config: Config
    var incarnation: string
    var health: Health
    var disabled: bool
    var active: nat
    var counters: map<CounterKey, nat>

    constructor (url: WorkerId, config: Config, incarnation: string)
      ensures this.url == url && this.config == config && this.incarnation == incarnation
      ensures health == Unknown && !disabled && active == 0 && counters == map[]
    {
      this.url, this.config, this.incarnation := url, config, incarnation;
      health, disabled, active, counters := Unknown, false, 0, map[];
    }

    ghost function Row(): Row
      reads this
    {
      RouterTypes.Row(health, disabled)
    }

    method SetDisabled(value: bool)
      modifies this`disabled
      ensures disabled == value
    {
      disabled := value;
    }

    method IncrementActive()
      modifies this`active
      ensures active == old(active) + 1
    {
      active := active + 1;
    }

    method DecrementActive()
      requires active > 0
      modifies this`active
      ensures active == old(active) - 1
    {
      active := active - 1;
    }

    /** A missing status, or one outside 200..399, is a failure. */
    method RecordRoutedRequest(status: Option<int>, serviceClass: ServiceClass)
      modifies this`counters
      ensures counters == Recorded(old(counters), status.Some? && 200 <= status.value < 400, serviceClass)
      ensures var outcome := if status.Some? && 200 <= status.value < 400 then Successful else Failed;
        forall key :: Get(counters, key) == Get(old(counters), key) +
          if key.kind in {Routed, outcome} && (key.Overall? || key.serviceClass == serviceClass) then 1 else 0
    {
      Increment(Overall(Routed));
      Increment(ByClass(Routed, serviceClass));
      if status.Some? && 200 <= status.value < 400 {
        Increment(Overall(Successful));
        Increment(ByClass(Successful, serviceClass));
        return;
      }
      Increment(Overall(Failed));
      Increment(ByClass(Failed, serviceClass));
    }

    method Increment(key: CounterKey)
      modifies this`counters
      ensures counters == Bump(old(counters), key)
    {
      counters := counters[key := Get(counters, key) + 1];
    }
  }
}
