# Protelis variable stack and test network manager, in Dafny

This project models two small pieces of the Protelis aggregate-programming VM
and proves the behaviour their documentation and code promise.

- **The variable stack** (`org.protelis.vm.util.Stack`): the lexically scoped
  store the VM uses for local variables while it evaluates a program. It is an
  ordered list of scopes, each a map from variable reference to value. `push`
  enters a scope, `pop` leaves it, `put` binds a variable either by shadowing
  (in the current scope only) or by overwriting the nearest existing binding,
  `putAll` binds a whole map (a function's arguments) into the current scope,
  and `get` searches from the innermost scope outwards.
  Module `Stack` (`stack.dfy`) gives the pure meaning of each command on a
  `seq<map<K, V>>` (index 0 is the global scope, the last element the current
  one), the laws relating the commands, and the class `ScopeStack` whose
  methods update the scope list in place and are proved against those
  functions. Java's `null` result is `Option.None` (`wrappers.dfy`).
- **The test network manager** (`org.protelis.vm.impl.TestNetworkManager`):
  the boundary through which one simulated device publishes the map of code
  paths to values it computed in a round, and reads back its neighbours'
  latest maps. Module `Network` (`network.dfy`) models the shared test
  environment as a content store `map<D, map<P, T>>` plus an opaque
  neighbourhood query, and the manager as a class with immutable `id` and
  `env` fields.

Device ids, code paths, variable references and values are type parameters:
the model never looks inside them.

## Model

| member | source | states |
|---|---|---|
| `Stack.Innermost` | protelis/protelis-interpreter/src/main/java/org/protelis/vm/util/Stack.java:56-64 | the index found is a scope binding the variable with no scope inside it binding it; none is found exactly when no scope binds it |
| `Stack.Lookup` | protelis/protelis-interpreter/src/main/java/org/protelis/vm/util/Stack.java:56-64 | get yields the value of the innermost scope where the variable is bound, and absent exactly when no scope binds it |
| `Stack.Target` | protelis/protelis-interpreter/src/main/java/org/protelis/vm/util/Stack.java:39-42 | a shadowing put writes the current scope; a non-shadowing put writes the nearest scope binding the variable, or the current scope when none binds it |
| `Stack.LookupAt` | protelis/protelis-interpreter/src/main/java/org/protelis/vm/util/Stack.java:61-62 | a binding with no inner binding of the same variable is the one get returns |
| `Stack.LookupPeel` | protelis/protelis-interpreter/src/main/java/org/protelis/vm/util/Stack.java:56-64 | get consults the current scope first and falls back to the enclosing scopes only when it has no binding |
| `Stack.PushKeepsBindings` | protelis/protelis-interpreter/src/main/java/org/protelis/vm/util/Stack.java:21-24 | after entering a new empty scope every variable reads as before |
| `Stack.PopForgetsInnermost` | protelis/protelis-interpreter/src/main/java/org/protelis/vm/util/Stack.java:26-29 | a variable bound only in the innermost scope is visible before leaving it and absent after |
| `Stack.ShadowChangesOnlyCurrent` | protelis/protelis-interpreter/src/main/java/org/protelis/vm/util/Stack.java:39-43 | a shadowing put keeps the number of scopes and every enclosing scope, changes only the current scope's entry, and returns only a value from the current scope |
| `Stack.OverwriteReachesEnclosing` | protelis/protelis-interpreter/src/main/java/org/protelis/vm/util/Stack.java:39-43 | a non-shadowing put of a variable bound only in an enclosing scope adds nothing to the current scope, makes the enclosing scopes read the new value, and returns the old enclosing value |
| `Stack.OverwriteReturnsVisibleValue` | protelis/protelis-interpreter/src/main/java/org/protelis/vm/util/Stack.java:41-43 | a non-shadowing put returns exactly the value get reported before it (absent when unbound) |
| `Stack.GetAfterPut` | protelis/protelis-interpreter/src/main/java/org/protelis/vm/util/Stack.java:31-45 | immediately after put of a value, get of that variable returns it, in both modes |
| `Stack.PutLeavesOtherVariables` | protelis/protelis-interpreter/src/main/java/org/protelis/vm/util/Stack.java:31-45 | put of one variable leaves what get reports for every other variable unchanged |
| `Stack.ShadowIsUndoneByPop` | protelis/protelis-interpreter/src/main/java/org/protelis/vm/util/Stack.java:21-45 | push, shadowing put, pop: inside, the new value is read and nothing is overwritten; after pop the scope list is exactly the original, so the outer value is visible again |
| `Stack.OverwriteSurvivesPop` | protelis/protelis-interpreter/src/main/java/org/protelis/vm/util/Stack.java:21-45 | push, non-shadowing put of a bound variable, pop: the new scope stays empty, the enclosing binding holds the new value, and the old value is returned |
| `Stack.BindAllBindsInCurrent` | protelis/protelis-interpreter/src/main/java/org/protelis/vm/util/Stack.java:47-54 | putAll keeps the number of scopes and every enclosing scope; variables of the map read their new values, all others read as before |
| `Stack.ScopeStack.constructor` | protelis/protelis-interpreter/src/main/java/org/protelis/vm/util/Stack.java:15-19 | the model's own constructor, since the interface declares none: a new store holds exactly one base scope, with the given global bindings |
| `Stack.ScopeStack.Push` | protelis/protelis-interpreter/src/main/java/org/protelis/vm/util/Stack.java:21-24 | appends exactly one empty innermost scope; every variable reads as before |
| `Stack.ScopeStack.Pop` | protelis/protelis-interpreter/src/main/java/org/protelis/vm/util/Stack.java:26-29 | removes exactly the innermost scope; the base scope always remains |
| `Stack.ScopeStack.Put` | protelis/protelis-interpreter/src/main/java/org/protelis/vm/util/Stack.java:31-45 | updates the target scope in place and returns the overwritten value; afterwards get of the variable returns the new value and every other variable reads as before |
| `Stack.ScopeStack.PutAll` | protelis/protelis-interpreter/src/main/java/org/protelis/vm/util/Stack.java:47-54 | binds every pair of the map into the current scope; map variables read their new values, others as before |
| `Stack.ScopeStack.Get` | protelis/protelis-interpreter/src/main/java/org/protelis/vm/util/Stack.java:56-64 | returns the value in the innermost scope binding the variable, or absent when none does; reads the store only |
| `Network.EmptyPublicationChangesNothing` | protelis/protelis-lang/src/test/java/org/protelis/vm/impl/TestNetworkManager.java:44-50 | sharing an empty map leaves the content store unchanged |
| `Network.PublicationOnlyUnderOwnId` | protelis/protelis-lang/src/test/java/org/protelis/vm/impl/TestNetworkManager.java:47-49 | sharing never adds, removes or changes the entry of any other device |
| `Network.PublicationStoredUnderOwnId` | protelis/protelis-lang/src/test/java/org/protelis/vm/impl/TestNetworkManager.java:47-49 | a non-empty map is stored whole under the manager's own id, which is the only key added |
| `Network.EmptyShareKeepsEarlierMap` | protelis/protelis-lang/src/test/java/org/protelis/vm/impl/TestNetworkManager.java:47-49 | an empty share after a non-empty one leaves the earlier map stored under the device's id |
| `Network.ShareThenQueryRoundTrip` | protelis/protelis-lang/src/test/java/org/protelis/vm/impl/TestNetworkManager.java:39-50 | when the neighbourhood of a device includes itself, sharing a non-empty map and then querying the neighbourhood returns that map for the device |
| `Network.TestEnvironment.PutContent` | protelis/protelis-lang/src/test/java/org/protelis/vm/impl/TestNetworkManager.java:48 | records the whole map as the latest content of the given device and changes no other entry |
| `Network.TestNetworkManager.constructor` | protelis/protelis-lang/src/test/java/org/protelis/vm/impl/TestNetworkManager.java:24-37 | the manager keeps the given device id and environment; both are immutable fields |
| `Network.TestNetworkManager.GetNeighborState` | protelis/protelis-lang/src/test/java/org/protelis/vm/impl/TestNetworkManager.java:39-42 | returns the environment's neighbourhood for the manager's own id, modifying nothing |
| `Network.TestNetworkManager.ShareState` | protelis/protelis-lang/src/test/java/org/protelis/vm/impl/TestNetworkManager.java:44-50 | a null map fails and changes nothing; an empty map succeeds and changes nothing; a non-empty map succeeds and is stored under the manager's own id only |

## Left out

- Only the `Stack` interface is part of this model; its implementing class is not. The semantics follow the interface's documentation. The `ScopeStack` constructor, which starts from one base scope, is a modelling choice.
- `Stack.Target`: when `put` runs without shadowing and no scope binds the variable, the model binds it in the current scope. The interface only says the prior value is always overwritten and does not say where a new binding goes, so this fallback is the model's own choice. It decides `Stack.GetAfterPut` in that case.
- `Stack.ScopeStack.Pop`: leaving the last scope is excluded by a precondition, because the interface does not say what happens then. The class invariant is that at least one scope remains.
- Java lets `put` store `null`, which `get` cannot tell apart from an unbound variable. In the model a bound value is always present. Storing an absent value is not modelled.
- The Java maps are shared objects. `putAll` and `shareState` hand over a reference that the caller could mutate later. The model passes maps as values, so such aliasing is not captured.
- `TestEnvironment` (the `getNeighborhood` and `putContent` implementations) is not part of this model. Its content store is a map field, and its neighbourhood computation is an opaque function fixed when the environment is built. No claim is made about which devices are neighbours.
- `Network.ShareThenQueryRoundTrip`: holds only under the stated hypothesis that the neighbourhood of a device includes the device itself with its stored content, because the neighbourhood computation is not modelled. It is also stated only for a non-empty map. An empty map is never handed to the environment, so whatever the device published earlier stays visible; `Network.EmptyShareKeepsEarlierMap` states this. The round trip therefore does not return an empty map exactly.
- `Objects.requireNonNull` throwing a `NullPointerException` becomes an `Outcome.Fail(NullMap)` result with the store unchanged.
- `Reference`, `CodePath` and `DeviceUID` are opaque keys, modelled as type parameters with equality.
