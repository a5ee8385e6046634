# Per-player variable store (PVar plugin) in Dafny

This project models the core of a SA-MP server plugin. The plugin lets Pawn scripts attach
named values to a player id. Each value is an integer, a string or a float. Scripts can read a
value back by name, ask for its type, delete it and enumerate a player's variables by a small
integer index. The plugin keeps two process-wide hash maps:

- `mainMap`: player id to a `DataMap`. A `DataMap` maps a lower-cased name to `(index, value)`.
- `indexMap`: player id to `(counter, queue of released indices)`. This pair is the
  allocator that hands out indices.

A new name gets index 0 if the player has no allocation state yet. Otherwise it gets the
oldest released index. If no index is queued, it gets `++counter`. Deleting a variable queues
its index. Deleting a player's last variable, or the player disconnecting, removes the player
from both maps.

Layout:

- `types.dfy`, module `PVarTypes` (include/main.h): the tagged `Value`, a DataMap `Entry`, the
  allocator's `Slots`, the type codes and the `CHECK_PARAMS` guard.
- `names.dfy`, module `Names` (`getString`): how a null string reads and how names are
  lower-cased.
- `model.dfy`, module `StoreModel`: both maps as one value `Tables`. Every native is written
  as a function of the tables it starts from, exactly as the source does it, for every state.
  The module also holds the coupled invariant `Inv` and the call surface `Dispatch`.
- `properties.dfy`, modules `StoreProperties` and `StoreScenarios`: every native keeps `Inv`.
  The other lemmas cover FIFO reuse, no residue after a player leaves, typed access, the
  upper-index query and enumeration, and worked call sequences.
- `store.dfy`, module `PVarStore`: class `Store`. Its fields `vars` and `alloc` are updated in
  place by methods that mirror the natives. Each method is proved to produce exactly the
  `StoreModel` result and to keep `Valid()`.

Three details of the code that the model follows as written:

- The upper-index query tests `mainMap` membership, not "has variables". The two agree
  under the invariant.
- `OnPlayerDisconnect` removes the player only when the player is in both maps.
- A variable holds one `(index, value)` pair. Setting an existing name replaces the value
  and its kind but keeps the index.

## Model

| member | source | states |
|---|---|---|
| PVarTypes.TypeCode | include/main.h:32-35 | The code is 0 exactly for a missing variable, and 1, 2 or 3 exactly for an int, string or float value. So the four codes are distinct. |
| Names.Lower | include/main.cpp:43 | The result has the name's length, contains no ASCII capital letter, and differs from the name only in the case of ASCII letters. |
| Names.StringParam | include/main.cpp:33-47 | A null string reads as "". Otherwise the result has the argument's length and differs from it only in letter case. A lower-cased result has no capital letter. Without lower-casing the argument is returned unchanged. |
| Names.SameKeyIffEqualIgnoringCase | include/main.cpp:43 | Two names lower-case to the same key if and only if they differ only in the case of ASCII letters. |
| Names.KeyCaseInsensitive | include/main.cpp:92 | Two name arguments that differ only in letter case address the same key. A null name and "" address the same key. |
| StoreModel.Lookup | include/main.cpp:130-134 | A value is found exactly when the owner is in mainMap and the key is in its DataMap, and it is the stored value. |
| StoreModel.GetInt | include/main.cpp:125-144 | Returns an integer exactly when the stored value is an int, and then that integer. A string or float is never coerced. |
| StoreModel.GetString | include/main.cpp:182-203 | Returns text exactly when the stored value is a string, and then that string. |
| StoreModel.GetFloat | include/main.cpp:242-261 | Returns a float exactly when the stored value is a float, and then that float. |
| StoreModel.GetType | include/main.cpp:340-366 | Reports TypeNone exactly when the owner or the name is unknown, and 1, 2 or 3 exactly when the int, string or float getter finds the variable. |
| StoreModel.MaxOf | include/main.cpp:307-313 | The scan's fold: the result is at least the floor, at least every element, and is the floor or an element. |
| StoreModel.UpperIndex | include/main.cpp:291-317 | Returns 0 for an unknown owner. On the scan branch it is at least 1 and above every live index. |
| StoreModel.NameAtIndex | include/main.cpp:319-338 | A name is found only for a variable of the owner that holds that index. Nothing is found only when no variable of the owner holds it. |
| StoreModel.Allocate | include/main.cpp:104-120 | An owner with no allocation state gets index 0 and state (0, empty queue). Otherwise the front of the queue is taken and the rest is kept in order. The counter is then unchanged. With an empty queue the index is the old counter plus one, it becomes the new counter, and the queue stays empty. |
| StoreModel.Set | include/main.cpp:89-123 | Returns 1 and stores the value under the key. Other owners and other names are untouched. An existing name keeps its index, and indexMap is unchanged. A new name gets the allocated index, and the owner's indexMap entry becomes the allocator's new state. A fresh owner's DataMap holds exactly the new name. |
| StoreModel.Delete | include/main.cpp:263-289 | Returns 1 exactly when the variable exists, and 0 changes nothing. On success the name is removed and its index goes to the back of the queue. The owner disappears from mainMap exactly when the deleted name was its last, and then it is removed from indexMap too. An owner without an indexMap entry does not gain one. Other owners are untouched. |
| StoreModel.Disconnect | include/main.cpp:74-87 | Always returns 1. An owner present in both maps is removed from both. Otherwise nothing changes. |
| StoreModel.Dispatch | include/main.h:38-43 | The expected count for each native (`Arity`) is the one its `CHECK_PARAMS` uses, and the guard (`ParamsMatch`) compares it times 4 with the byte count. A call with the wrong parameter byte count returns 0 and leaves both maps unchanged. Getters, the type query, the upper-index query and the name-at-index query never change the maps. |
| StoreProperties.OwnerInvUpdate | include/main.cpp:94-102 | Replacing an existing variable's value keeps the owner's live and queued indices partitioned. |
| StoreProperties.OwnerInvFirst | include/main.cpp:117-121 | The first variable of an owner, at index 0 with counter 0 and an empty queue, satisfies the owner invariant. |
| StoreProperties.OwnerInvPop | include/main.cpp:107-111 | Reusing the front of the queue moves that index from queued to live and keeps the partition of 0..counter. |
| StoreProperties.OwnerInvBump | include/main.cpp:112-115 | With an empty queue the pre-incremented counter is an index no variable holds, and the partition extends to it. |
| StoreProperties.OwnerInvRelease | include/main.cpp:274-284 | Deleting a variable that is not the owner's last moves its index from live to the back of the queue and keeps the partition. |
| StoreProperties.SetPreservesInv | include/main.cpp:89-123 | Setting any lower-cased name keeps the coupled invariant of the two maps. |
| StoreProperties.DeletePreservesInv | include/main.cpp:263-289 | Deleting keeps the coupled invariant. |
| StoreProperties.DisconnectPreservesInv | include/main.cpp:74-87 | A disconnect keeps the coupled invariant. |
| StoreProperties.DispatchPreservesInv | include/main.cpp:368-382 | Every native call, well-formed or not, keeps the coupled invariant. |
| StoreProperties.AllocateIsFresh | include/main.cpp:104-121 | Under the invariant, a newly allocated index is non-negative and held by no live variable of the owner. |
| StoreProperties.FifoReuse | include/main.cpp:107-111 | Start with an empty queue and delete a, then b. The next two new names, which may be a and b again, get a's index and then b's, and the allocation state returns to what it was. |
| StoreProperties.NumberingRestartsAfterLastDelete | include/main.cpp:280-284 | After the owner's last variable is deleted, the next new variable gets index 0 with state (0, empty queue). |
| StoreProperties.NoResidueAfterLastDelete | include/main.cpp:280-284 | After the owner's last variable is deleted, the owner is in neither map. Every type query for it gives TypeNone, the upper index is 0, and no index names a variable. |
| StoreProperties.DisconnectForgetsOwner | include/main.cpp:74-87 | Under the invariant, a disconnect removes exactly that owner from both maps. The upper index becomes 0 and every type query gives TypeNone. A second disconnect changes nothing more. |
| StoreProperties.SetThenGet | include/main.cpp:89-144 | A value set under a name is read back through any letter-case spelling of that name, a null name standing for "". Only the getter of its own kind returns it, and the type query reports its kind. |
| StoreProperties.SetLeavesOthers | include/main.cpp:121 | Setting one (owner, name) leaves the value at every other (owner, name) unchanged. |
| StoreProperties.UpperIndexIsMaxLivePlusOne | include/main.cpp:291-317 | Under the invariant both non-zero branches give one more than the largest live index. The result minus one is a live index, and every live index lies below it. |
| StoreProperties.NameAtIndexFindsOwnVariable | include/main.cpp:319-338 | Under the invariant, looking up a variable's own index finds exactly that variable, and its name is lower-case. |
| StoreProperties.EnumerationIsComplete | include/main.cpp:291-338 | Walking 0 up to the upper index minus one, each variable is found at its own index. No index outside that range names a variable. |
| StoreScenarios.ReuseScenario | include/main.cpp:89-123 | Replay: "score" gets 0, an update keeps 0 and reads back 20, and "name" gets 1. Deleting "score" queues 0 and "ratio" reuses it. Index 0 then names "ratio" and index 1 names "name". |
| StoreScenarios.UpperIndexScenario | include/main.cpp:291-317 | Three variables take indices 0, 1 and 2, and the bound is 3. After deleting index 1 the queue is non-empty and the scanned bound is still 3. |
| StoreScenarios.CaseScenario | include/main.cpp:33-47 | Setting "Health" to 100 and then reading "health" gives 100. |
| PVarStore.Store.constructor | include/main.cpp:28-29 | The store starts with both maps empty, which satisfies the invariant. |
| PVarStore.Store.Set | include/main.cpp:89-123 | Updates the maps in place to exactly StoreModel.Set of the old maps, returns 1 and keeps Valid. |
| PVarStore.Store.Delete | include/main.cpp:263-289 | Updates the maps in place to exactly StoreModel.Delete of the old maps, returns its code and keeps Valid. |
| PVarStore.Store.Disconnect | include/main.cpp:74-87 | Leaves exactly StoreModel.Disconnect of the old maps, returns true and keeps Valid. |
| PVarStore.Store.UpperIndex | include/main.cpp:291-317 | Its fast path and its scan loop over the owner's names return exactly StoreModel.UpperIndex. |
| PVarStore.Store.NameAtIndex | include/main.cpp:319-338 | Its scan loop returns exactly StoreModel.NameAtIndex: the one variable holding the index, or nothing. |
| PVarStore.Store.Call | include/main.h:38-43 | Checks the parameter count, then runs the native. The new maps and the reply are exactly StoreModel.Dispatch of the old maps, and Valid is kept. |

## Left out

- Plugin lifecycle and registration (`Supports`, `Load`, `Unload`, `AmxLoad`, `AmxUnload`,
  the natives table) and `logprintf`: host I/O and logging. The diagnostic line that
  `CHECK_PARAMS` logs is left out for the same reason.
- AMX marshalling. `amx_StrParam` becomes an `Option<string>`, where `None` stands for a null
  pointer. `amx_GetAddr` and `amx_SetString` become the `Copied(text)` reply, and truncation
  to the script's buffer `size` is not modelled. `amx_ctof`/`amx_ftoc` become an opaque
  32-bit float pattern with no arithmetic.
- `::tolower` depends on the locale. It is modelled as ASCII lower-casing.
- `unordered_map` iteration order: the two scans pick names from a set. Under the invariant
  at most one name holds an index, so their answers do not depend on the order.
- 32-bit overflow of `++counter` and of the `cell` casts of owner and index: owners, indices
  and counters are unbounded integers. Stored integer values are 32-bit (`Int32`).
- The `reason` argument of `OnPlayerDisconnect` is ignored by the source and is not modelled.
- StoreModel.Delete: for an owner that is in `mainMap` but not in `indexMap`, the source
  calls `indexMap.erase` on the end iterator, which is undefined behaviour. The model leaves
  `indexMap` unchanged there. The invariant rules this state out.
- PVarStore.Store.Set, Store.Delete, Store.Disconnect, Store.NameAtIndex and Store.Call require
  `Valid()`. The source has no such precondition. The store starts empty and every
  operation keeps `Valid()`, so the condition always holds. The `StoreModel` functions describe
  every state without it.
- Concurrency: the source has none.
