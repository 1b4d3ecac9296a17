/** `Puppet::Provider::Fme`, the parent of every provider: `exists?` and the
    `prefetch` that hands each declared resource the provider instance found
    on the server under its name. */
module Fme {
  import opened Wrappers
  import opened Values

  /** `exists?`: the cached ensure is `:present`. */
  predicate Exists(propertyHash: PropertyHash)
    ensures Exists(propertyHash) <==> "ensure" in propertyHash && propertyHash["ensure"] == PRESENT
  {
    At(propertyHash, "ensure") == PRESENT
  }

  /** The key `prov.name` looks a provider up by: its cached name, if that is a string. */
  function NameKey(instance: PropertyHash): (k: Option<string>)
    ensures k.Some? <==> "name" in instance && instance["name"].Str?
    ensures k.Some? ==> instance["name"] == Str(k.value)
  {
    if At(instance, "name").Str? then Some(At(instance, "name").s) else None
  }

  /** A resource declared in the catalog; its provider is represented by the
      provider's property hash. */
  class DeclaredResource {
    var provider: PropertyHash

    constructor (provider: PropertyHash)
      ensures this.provider == provider
    {
      this.provider := provider;
    }
  }

  /** The keys under which the same resource object as `resources[k]` is declared. */
  function Aliases(resources: map<string, DeclaredResource>, k: string): set<string>
    requires k in resources
  {
    set k' | k' in resources && resources[k'] == resources[k]
  }

  /** The provider a resource declared under `keys` ends up with after the
      instances are visited in order, starting from `current`: the last
      instance whose name is one of the keys. */
  function Chosen(instances: seq<PropertyHash>, keys: set<string>, current: PropertyHash): (r: PropertyHash)
    ensures r == current || (r in instances && NameKey(r).Some? && NameKey(r).value in keys)
  {
    if instances == [] then current
    else
      var last := instances[|instances| - 1];
      if NameKey(last).Some? && NameKey(last).value in keys then last
      else Chosen(instances[..|instances| - 1], keys, current)
  }

  /** `prefetch(resources)`: every instance whose name is a key of `resources`
      becomes the provider of the resource declared under that name. The map
      itself is a value here, so no entry is added or removed. */
  method Prefetch(instances: seq<PropertyHash>, resources: map<string, DeclaredResource>)
    modifies resources.Values
    ensures forall k :: k in resources ==>
              resources[k].provider == Chosen(instances, Aliases(resources, k), old(resources[k].provider))
  {
    var i := 0;
    while i < |instances|
      invariant 0 <= i <= |instances|
      invariant forall k :: k in resources ==>
                  resources[k].provider == Chosen(instances[..i], Aliases(resources, k), old(resources[k].provider))
    {
      var prov := instances[i];
      assert instances[..i + 1][..i] == instances[..i];
      var name := NameKey(prov);
      if name.Some? && name.value in resources {
        resources[name.value].provider := prov;
      }
      i := i + 1;
    }
    assert instances[..i] == instances;
  }

  /** A resource under keys no instance is named after keeps its provider. */
  lemma {:induction false} ChosenUnmatched(instances: seq<PropertyHash>, keys: set<string>, current: PropertyHash)
    requires forall j :: 0 <= j < |instances| ==> NameKey(instances[j]).None? || NameKey(instances[j]).value !in keys
    ensures Chosen(instances, keys, current) == current
  {
    if instances != [] {
      ChosenUnmatched(instances[..|instances| - 1], keys, current);
    }
  }

  /** A resource under keys some instance is named after gets the last such instance. */
  lemma {:induction false} ChosenMatched(instances: seq<PropertyHash>, keys: set<string>, current: PropertyHash, j: nat)
    requires j < |instances| && NameKey(instances[j]).Some? && NameKey(instances[j]).value in keys
    requires forall j' :: j < j' < |instances| ==> NameKey(instances[j']).None? || NameKey(instances[j']).value !in keys
    ensures Chosen(instances, keys, current) == instances[j]
  {
    if j < |instances| - 1 {
      ChosenMatched(instances[..|instances| - 1], keys, current, j);
    }
  }

  /** When every name is declared by its own resource object (as in a Puppet
      catalog), a resource's aliases are just its own name. */
  lemma AliasesOfDistinct(resources: map<string, DeclaredResource>, k: string)
    requires k in resources
    requires forall k1, k2 :: k1 in resources && k2 in resources && k1 != k2 ==> resources[k1] != resources[k2]
    ensures Aliases(resources, k) == {k}
  {
  }
}
