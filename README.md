# DefaultSetterFactory of the SOFARPC Hystrix extension, in Dafny

`DefaultSetterFactory` builds the Hystrix setters that the fault-tolerance
filter hands to Hystrix for each remote call. A setter carries a group key
(the interface id of the invoker) and a command key (the name of the invoked
method). The factory keeps two create-once tables keyed by the invoked method:
`SETTER_CACHE` for `HystrixCommand.Setter` and `OBSERVABLE_SETTER_CACHE` for
`HystrixObservableCommand.Setter`. `createSetter` and `createObservableSetter`
follow the same get-or-insert rule. If the method has no entry, they build a
setter from the two keys and store it. If it has one, they return the stored
setter and ignore the keys passed in. Entries are never replaced or removed.

The model has three modules:

- `Setters` (setters.dfy): the immutable `Setter` value, its two variants, and
  `Request`, the inputs of one call.
- `SetterCache` (setter_cache.dfy): the table contract as functions.
  `PutIfAbsent` is one call. `Replay`, `Responses` and `Misses` describe a
  sequence of calls on one table, made one at a time in some sequential
  order. `Misses` counts the calls that find their key absent from the
  table and so build a setter.
  The lemmas prove create-once, first-call-wins and single construction for
  such sequences.
- `Hystrix` (hystrix.dfy): the class `DefaultSetterFactory` with both tables
  as `map` fields. Its methods keep both checks of the double-checked locking.
  Each method's postcondition ties the new state to `PutIfAbsent` of the old
  state, with the setter built by the same `Build` that `Replay` uses. A
  ghost counter of built setters stands for a construction hook. Each call
  raises it by `Misses` of that one call. The class invariant says the
  counter always equals the number of stored entries, so no key's setter is
  built twice. `RunCalls` makes a sequence of `createSetter` calls on one
  factory and proves that the table, the results and the builds are those of
  `Replay`, `Responses` and `Misses`. So the sequence lemmas hold of the
  factory itself.

The Java `Method` key becomes the type parameter `K`, which only needs
equality. The invoker and request inputs become the plain string parameters
`groupKey` and `commandKey`.

## Model

| member | source | states |
|---|---|---|
| `Hystrix.DefaultSetterFactory.constructor` | extension-impl/fault-hystrix/src/main/java/com/alipay/sofa/rpc/hystrix/DefaultSetterFactory.java:37-39 | both tables start empty and the invariant holds |
| `Hystrix.DefaultSetterFactory.CreateSetter` | extension-impl/fault-hystrix/src/main/java/com/alipay/sofa/rpc/hystrix/DefaultSetterFactory.java:42-57 | the command table becomes the insert-if-absent of the old one; the result is the table's entry for the method; on a hit the table is unchanged and the old entry is returned; on a miss the result has group = interface id and command = method name; the observable table is unchanged; exactly one setter is built on a miss and none on a hit, which is `Misses` of the one call; the inner re-check never fails when run alone |
| `Hystrix.DefaultSetterFactory.CreateObservableSetter` | extension-impl/fault-hystrix/src/main/java/com/alipay/sofa/rpc/hystrix/DefaultSetterFactory.java:60-75 | the same as `CreateSetter`, on the observable table, with the command table unchanged |
| `Setters.Build` | extension-impl/fault-hystrix/src/main/java/com/alipay/sofa/rpc/hystrix/DefaultSetterFactory.java:47-51 | definition: the setter a miss builds, with group key = the interface id and command key = the method name |
| `SetterCache.Replay` | extension-impl/fault-hystrix/src/main/java/com/alipay/sofa/rpc/hystrix/DefaultSetterFactory.java:44-52 | definition: the table after a sequence of calls, each applying the insert-if-absent step of lines 44-52 |
| `SetterCache.Responses` | extension-impl/fault-hystrix/src/main/java/com/alipay/sofa/rpc/hystrix/DefaultSetterFactory.java:56 | definition: the setter each call in a sequence returns, read back from the table as at line 56; one result per call |
| `SetterCache.Misses` | extension-impl/fault-hystrix/src/main/java/com/alipay/sofa/rpc/hystrix/DefaultSetterFactory.java:46-52 | definition: how many calls in a sequence find their key absent from the table and build a setter |
| `SetterCache.PutIfAbsent` | extension-impl/fault-hystrix/src/main/java/com/alipay/sofa/rpc/hystrix/DefaultSetterFactory.java:44-56 | afterwards the key is present and the domain grows by at most that key; every existing entry keeps its value; a present key leaves the table as it was; an absent key gets the new value |
| `SetterCache.PutIfAbsentIdempotent` | extension-impl/fault-hystrix/src/main/java/com/alipay/sofa/rpc/hystrix/DefaultSetterFactory.java:44-56 | a second call with the same key, whatever it would store, changes nothing and sees the first call's entry |
| `SetterCache.ReplayKeys` | extension-impl/fault-hystrix/src/main/java/com/alipay/sofa/rpc/hystrix/DefaultSetterFactory.java:44-52 | after any sequence of calls the domain is the old domain plus the called keys: nothing is removed, nothing else is added |
| `SetterCache.ReplayKeepsEntries` | extension-impl/fault-hystrix/src/main/java/com/alipay/sofa/rpc/hystrix/DefaultSetterFactory.java:44-46 | an entry present before any sequence of calls keeps its value afterwards |
| `SetterCache.ReplayFirstCallWins` | extension-impl/fault-hystrix/src/main/java/com/alipay/sofa/rpc/hystrix/DefaultSetterFactory.java:46-52 | a key absent at the start ends up holding the setter built from the first call's group and command keys |
| `SetterCache.ResponsesAreFinalEntries` | extension-impl/fault-hystrix/src/main/java/com/alipay/sofa/rpc/hystrix/DefaultSetterFactory.java:52-56 | every call in a sequence returns the setter the table finally holds for its key |
| `SetterCache.SameKeySameSetter` | extension-impl/fault-hystrix/src/main/java/com/alipay/sofa/rpc/hystrix/DefaultSetterFactory.java:44-56 | any two calls for the same key receive equal setters |
| `SetterCache.MissesCount` | extension-impl/fault-hystrix/src/main/java/com/alipay/sofa/rpc/hystrix/DefaultSetterFactory.java:44-52 | the number of calls that find their key absent from the table and build a setter equals the number of distinct called keys that were absent at the start |
| `SetterCache.MissesAreGrowth` | extension-impl/fault-hystrix/src/main/java/com/alipay/sofa/rpc/hystrix/DefaultSetterFactory.java:46-52 | the table grows by exactly the number of setters the calls build: every build is stored, and only builds are |
| `SetterCache.SingleConstruction` | extension-impl/fault-hystrix/src/main/java/com/alipay/sofa/rpc/hystrix/DefaultSetterFactory.java:44-56 | many calls for one absent key build exactly one setter, and every call receives the setter built from the first call's inputs |
| `Hystrix.RunCalls` | extension-impl/fault-hystrix/src/main/java/com/alipay/sofa/rpc/hystrix/DefaultSetterFactory.java:42-57 | a sequence of `createSetter` calls on one factory leaves the command table equal to `Replay`, returns `Responses`, raises the build counter by `Misses`, keeps the invariant and leaves the observable table unchanged |
| `Hystrix.ReuseIgnoresFreshInputs` | extension-impl/fault-hystrix/src/main/java/com/alipay/sofa/rpc/hystrix/DefaultSetterFactory.java:42-57 | on a new factory, the second `createSetter` for a method returns the first call's setter, whatever keys it passes |
| `Hystrix.TablesAreIndependent` | extension-impl/fault-hystrix/src/main/java/com/alipay/sofa/rpc/hystrix/DefaultSetterFactory.java:37-39 | after `createSetter` for a method, `createObservableSetter` for the same method still misses and builds its own setter from its own keys |

## Left out

- The `synchronized (DefaultSetterFactory.class)` block and the
  `ConcurrentHashMap` visibility guarantees: the model is sequential. Calls run
  one at a time, in some sequential order. In Java, a hit (line 44) takes no
  lock at all. Both Java methods lock the same class monitor (lines 45 and
  63), so a miss in one table can wait for a miss in the other. The model
  does not capture either point.
- The Hystrix builders (`HystrixCommand.Setter.withGroupKey(...).andCommandKey(...)`,
  `HystrixObservableCommand.Setter`, `HystrixCommandGroupKey.Factory.asKey`,
  `HystrixCommandKey.Factory.asKey`) are in a foreign library. They become the
  pure constructor `Setter(variant, groupKey, commandKey)`, which cannot fail.
- `FilterInvoker.getConfig().getInterfaceId()`, `SofaRequest.getMethod()` and
  `SofaRequest.getMethodName()` are RPC plumbing. They become the parameters
  `clientMethod`, `groupKey` and `commandKey`.
- The reflective identity of `java.lang.reflect.Method` is not modelled. The
  key is any type with equality. Java hands every caller the same stored
  object (lines 56 and 74). The model proves only that the returned values
  are equal.
- Null is not modelled. A null `Method` makes `containsKey` throw at lines 44
  and 62, because `ConcurrentHashMap` rejects null keys. `K` and `string`
  have no null, so this error path is not in the model.
- In Java, the interface id and the method name are fetched only on a miss
  (lines 47-48 and 65-66). A failing `getConfig()` or `getMethodName()`
  therefore shows up only on a miss. The model receives both strings up
  front, so it does not capture this.
- The static, process-wide lifetime of the two tables is not modelled. They
  are fields of one factory object, and the example methods each create a new
  factory.
