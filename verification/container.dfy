/** The client's service locator: a single container mapping keys to registered dependencies. */
module Container {
  import opened Js

  /** What `resolve(key)` gives: the dependency, or the error it throws. */
  datatype Resolution = Found(value: JsValue) | NotFound(message: string)

  /** `resolve` over the registered map: a missing key and a falsy registered value both throw
      `Dependency not found: <key>`. */
  function Lookup(dependencies: map<string, JsValue>, key: string): (r: Resolution)
    ensures r.Found? <==> key in dependencies && Truthy(dependencies[key])
    ensures r.Found? ==> r.value == dependencies[key]
    ensures r.NotFound? ==> r.message == "Dependency not found: " + key
  {
    if key in dependencies && Truthy(dependencies[key]) then Found(dependencies[key])
    else NotFound("Dependency not found: " + key)
  }

  /** Registering a truthy dependency makes it resolvable under its key, and a later registration
      under the same key wins. */
  lemma {:induction false} RegisterThenResolve(dependencies: map<string, JsValue>, key: string, v: JsValue, w: JsValue)
    ensures Truthy(v) ==> Lookup(dependencies[key := v], key) == Found(v)
    ensures !Truthy(v) ==> Lookup(dependencies[key := v], key).NotFound?
    ensures Lookup(dependencies[key := w][key := v], key) == Lookup(dependencies[key := v], key)
  {
    assert dependencies[key := w][key := v] == dependencies[key := v];
  }

  /** Registering under one key does not change what any other key resolves to. */
  lemma RegisterIsolated(dependencies: map<string, JsValue>, key: string, v: JsValue, other: string)
    requires other != key
    ensures Lookup(dependencies[key := v], other) == Lookup(dependencies, other)
  {
    assert (other in dependencies[key := v]) == (other in dependencies);
  }

  class DependencyContainer {
    var dependencies: map<string, JsValue>

    constructor ()
      ensures dependencies == map[]
    {
      dependencies := map[];
    }

    /** `register(key, dependency)`: set (or overwrite) the entry for `key`. */
    method Register(key: string, dependency: JsValue)
      modifies this`dependencies
      ensures dependencies == old(dependencies)[key := dependency]
    {
      dependencies := dependencies[key := dependency];
    }

    /** `resolve(key)`, leaving the container unchanged. */
    method Resolve(key: string) returns (r: Resolution)
      ensures r == Lookup(dependencies, key)
    {
      r := Lookup(dependencies, key);
    }
  }

  /** The static slot behind `getInstance`. */
  class Singleton {
    var instance: DependencyContainer?

    constructor ()
      ensures instance == null
    {
      instance := null;
    }

    /** The first call creates an empty container; every call returns the one in the slot. */
    method GetInstance() returns (c: DependencyContainer)
      modifies this`instance
      ensures old(instance) != null ==> c == old(instance)
      ensures old(instance) == null ==> fresh(c) && c.dependencies == map[]
      ensures instance == c
    {
      if instance == null {
        instance := new DependencyContainer();
      }
      c := instance;
    }
  }
}
