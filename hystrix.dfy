/**
 DefaultSetterFactory: uses the interface id as the group key and the method
 name as the command key, and caches one setter per invoked method in each
 of two independent tables.
 */
module Hystrix {
  import opened Setters
  import opened SetterCache

  /** `K` stands for the invoked method, the key of both tables. */
  class DefaultSetterFactory<K(==)> {
    /** Setters for HystrixCommand, by invoked method. */
    var setterCache: map<K, Setter>
    /** Setters for HystrixObservableCommand, by invoked method. */
    var observableSetterCache: map<K, Setter>
    /** How many setters the factory has built so far. Valid() ties it to the
        sizes of the two tables. */
    ghost var constructions: nat

    /** Each table holds its own kind of setter, and every setter ever built
        is stored: no key's setter is built twice. */
    ghost predicate Valid()
      reads this
    {
      && (forall k :: k in setterCache ==> setterCache[k].variant == Command)
      && (forall k :: k in observableSetterCache ==> observableSetterCache[k].variant == ObservableCommand)
      && constructions == |setterCache| + |observableSetterCache|
    }

    constructor ()
      ensures Valid()
      ensures setterCache == map[] && observableSetterCache == map[]
    {
      setterCache := map[];
      observableSetterCache := map[];
      constructions := 0;
    }

    /** The setter for `clientMethod`, built from the two keys on the first
        call for that method and reused on every later one. */
    method CreateSetter(clientMethod: K, groupKey: string, commandKey: string) returns (setter: Setter)
      requires Valid()
      modifies this
      ensures Valid()
      ensures setterCache == PutIfAbsent(old(setterCache), clientMethod, Build(Command, Request(clientMethod, groupKey, commandKey)))
      ensures clientMethod in setterCache && setter == setterCache[clientMethod]
      ensures clientMethod in old(setterCache) ==> setterCache == old(setterCache) && setter == old(setterCache)[clientMethod]
      ensures clientMethod !in old(setterCache) ==> setter == Build(Command, Request(clientMethod, groupKey, commandKey))
      ensures observableSetterCache == old(observableSetterCache)
      // The counter's rise follows from Valid() and the new table; it is not
      // an independent hook.
      ensures constructions == old(constructions) + Misses(Command, old(setterCache), [Request(clientMethod, groupKey, commandKey)])
    {
      if clientMethod !in setterCache {
        // createSetter takes the class-wide lock here and checks again;
        // run alone, the second check always agrees with the first.
        if clientMethod !in setterCache {
          var built := Build(Command, Request(clientMethod, groupKey, commandKey));
          setterCache := setterCache[clientMethod := built];
          constructions := constructions + 1;
        } else {
          assert false;
        }
      }
      setter := setterCache[clientMethod];
    }

    /** The same rule as CreateSetter, on the observable table. */
    method CreateObservableSetter(clientMethod: K, groupKey: string, commandKey: string) returns (setter: Setter)
      requires Valid()
      modifies this
      ensures Valid()
      ensures observableSetterCache
           == PutIfAbsent(old(observableSetterCache), clientMethod, Build(ObservableCommand, Request(clientMethod, groupKey, commandKey)))
      ensures clientMethod in observableSetterCache && setter == observableSetterCache[clientMethod]
      ensures clientMethod in old(observableSetterCache) ==>
                observableSetterCache == old(observableSetterCache) && setter == old(observableSetterCache)[clientMethod]
      ensures clientMethod !in old(observableSetterCache) ==>
                setter == Build(ObservableCommand, Request(clientMethod, groupKey, commandKey))
      ensures setterCache == old(setterCache)
      ensures constructions
           == old(constructions) + Misses(ObservableCommand, old(observableSetterCache), [Request(clientMethod, groupKey, commandKey)])
    {
      if clientMethod !in observableSetterCache {
        // createObservableSetter takes the same class-wide lock here and
        // checks again, as createSetter does.
        if clientMethod !in observableSetterCache {
          var built := Build(ObservableCommand, Request(clientMethod, groupKey, commandKey));
          observableSetterCache := observableSetterCache[clientMethod := built];
          constructions := constructions + 1;
        } else {
          assert false;
        }
      }
      setter := observableSetterCache[clientMethod];
    }
  }

  /** A sequence of createSetter calls on one factory, made one after another:
      the command table, the results and the number of setters built are those
      of `Replay`, `Responses` and `Misses`, so the lemmas about them hold of
      the factory. */
  method RunCalls<K(==)>(factory: DefaultSetterFactory<K>, calls: seq<Request<K>>) returns (results: seq<Setter>)
    requires factory.Valid()
    modifies factory
    ensures factory.Valid()
    ensures factory.setterCache == Replay(Command, old(factory.setterCache), calls)
    ensures results == Responses(Command, old(factory.setterCache), calls)
    ensures factory.constructions == old(factory.constructions) + Misses(Command, old(factory.setterCache), calls)
    ensures factory.observableSetterCache == old(factory.observableSetterCache)
  {
    var i := 0;
    results := [];
    while i < |calls|
      invariant 0 <= i <= |calls|
      invariant factory.Valid()
      invariant Replay(Command, factory.setterCache, calls[i..]) == Replay(Command, old(factory.setterCache), calls)
      invariant results + Responses(Command, factory.setterCache, calls[i..]) == Responses(Command, old(factory.setterCache), calls)
      invariant factory.constructions + Misses(Command, factory.setterCache, calls[i..])
             == old(factory.constructions) + Misses(Command, old(factory.setterCache), calls)
      invariant factory.observableSetterCache == old(factory.observableSetterCache)
    {
      assert calls[i..][0] == calls[i] && calls[i..][1..] == calls[i + 1..];
      var setter := factory.CreateSetter(calls[i].key, calls[i].groupKey, calls[i].commandKey);
      results := results + [setter];
      i := i + 1;
    }
    assert calls[i..] == [];
  }

  /** A second call for the same method returns the first call's setter and
      ignores its own keys. */
  method ReuseIgnoresFreshInputs<K(==)>(clientMethod: K, groupKey: string, commandKey: string, otherGroup: string, otherCommand: string)
    returns (first: Setter, second: Setter)
    ensures first == Setter(Command, groupKey, commandKey)
    ensures second == first
  {
    var factory := new DefaultSetterFactory<K>();
    first := factory.CreateSetter(clientMethod, groupKey, commandKey);
    second := factory.CreateSetter(clientMethod, otherGroup, otherCommand);
  }

  /** Filling one table for a method leaves the other table without an entry
      for it: the observable call builds its own setter from its own keys. */
  method TablesAreIndependent<K(==)>(clientMethod: K, groupKey: string, commandKey: string, otherGroup: string, otherCommand: string)
    returns (standard: Setter, observable: Setter)
    ensures standard == Setter(Command, groupKey, commandKey)
    ensures observable == Setter(ObservableCommand, otherGroup, otherCommand)
  {
    var factory := new DefaultSetterFactory<K>();
    standard := factory.CreateSetter(clientMethod, groupKey, commandKey);
    observable := factory.CreateObservableSetter(clientMethod, otherGroup, otherCommand);
  }
}
