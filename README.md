# redux-data-dispatch, modelled in Dafny

redux-data-dispatch is Redux middleware. It lets one action fan out into
"dependency" actions, one for each slice of the state tree that needs data
from it. The model covers the library's core:

- `dotCaseToObjectProperty` (src/utils/index.js) is modelled in `utils.dfy`, module `Utils`.
  - It splits a selector at a separator the way `String.prototype.split` does.
  - It then walks an object one segment at a time.
  - It throws a `TypeError` naming the first segment that looks up to `undefined`.
- `DATA_TREE_ID`, `listenFor`, `_checkDependencyObject` and `dataDispatch` (src/core/index.js) are modelled in `core.dfy`, module `Core`.
  - `listenFor(key)(reducer)` merges the payload of a dependency action aimed at `key` into `state.entities`.
  - `_checkDependencyObject` rejects a dependency value that is neither a string nor a function.
  - `dataDispatch` dispatches one dependency action per entry of the mapping and then forwards the original action to `next`.
- JavaScript values, the errors the core throws, and Option/Result wrappers are in `js_value.dfy`, module `JsValue`.

A throw is modelled as an `Err` result. The store is a class whose `log`
records, in order:

- every action handed to `store.dispatch` (`Dispatched`);
- the action passed to the middleware's `next` (`Forwarded`).

`Core.DataDispatch` is a `while` loop over the dependency entries. It is
proved against the specification function `Core.Dependents`, which lists the
dependency actions the mapping produces and the error that cuts the loop
short. The lemmas about `Dependents` and about the resolver state what the
library promises.

Three behaviours of the source are worth stating; the model follows them:

- The enhanced reducer can throw, besides whatever the wrapped reducer throws.
  - A marked action whose `type` is a string makes `Symbol.keyFor` throw.
  - A matching dependency action on an `undefined` or `null` state makes the read of `state.entities` throw.
- The dependency mapping is the second argument of the dispatching function, defaulting to `{}`. It is not a field of the action.
- All dependency actions are dispatched before the original action is forwarded. A dependency function that throws, or a path that does not resolve, leaves the actions already dispatched in place, and the original action is not forwarded.

The unit tests call `setupTree(store)` from a `src/index.js` that is not part
of this model. `Core.SetupTree` runs `dataDispatch` on a fresh store whose
`next` is the store's own dispatch.

## Model

| member | source | states |
|---|---|---|
| Utils.Split | src/utils/index.js:8 | `selector.split(separator)` for a non-empty separator yields at least one piece |
| Utils.SplitPiecesFree | src/utils/index.js:8 | no piece produced by the split contains the separator |
| Utils.JoinSplit | src/utils/index.js:8 | joining the pieces with the separator gives back the selector |
| Utils.SplitJoin | src/utils/index.js:8 | for a one-character separator, splitting a join of separator-free pieces gives back exactly those pieces |
| Utils.SplitConcat | src/utils/index.js:8 | splitting `p + sep + q` is the split of `p` followed by the split of `q` |
| Utils.SplitRenamedSeparator | src/utils/index.js:8 | renaming the separator character to one absent from the selector does not change the pieces |
| Utils.ResolveParts | src/utils/index.js:9-13 | the reduce returns the start object for no segments and never returns `undefined` otherwise; its error is `PathNotFound` for the selector and a segment of the path |
| Utils.DotCaseToObjectProperty | src/utils/index.js:7-14 | a successful lookup is never `undefined`; a failure names the selector and one of its segments |
| Utils.ResolveConcat | src/utils/index.js:9-13 | resolving `a + b` is resolving `a` and then resolving `b` from its result; an error in `a` is final |
| Utils.ResolveFailsAtFirstMissing | src/utils/index.js:10-11 | a failure names segment `j`, every segment before `j` resolves, and segment `j` looks up to `undefined` |
| Utils.ResolveMissingFails | src/utils/index.js:10-11 | conversely, when the segments before `j` resolve and segment `j` is missing, the lookup fails naming segment `j` |
| Utils.ResolveRenamedSelector | src/utils/index.js:11 | the selector only appears in the error message: the same segments resolve to the same value |
| Utils.SingleSegment | src/utils/index.js:7-13 | a selector without the separator is a single property lookup that throws exactly when the property is `undefined` |
| Utils.CustomSeparator | src/utils/index.js:7-8 | a custom one-character separator absent from the selector resolves like the default separator does on the renamed selector |
| Utils.ResolveSelectorConcat | src/utils/index.js:8-13 | resolving the selector `p + sep + q` is resolving `p` and then resolving `q` from its value |
| Utils.SampleResolvesX | test/unit/utils.spec.js:17-20 | `'a.x'` resolves to `'foo'` in the test object |
| Utils.SampleResolvesD | test/unit/utils.spec.js:17-20 | `'a.b.c.d'` resolves to 42 in the test object |
| Utils.SampleMissesC | test/unit/utils.spec.js:22-24 | `'a.b._c._d'` throws, naming the segment `_c` |
| Utils.SampleCustomSeparator | test/unit/utils.spec.js:26-28 | `'a*b*c*d'` with separator `'*'` resolves to 42 |
| JsValue.Get | src/utils/index.js:10 | a property read gives the object's own value for that key, and `undefined` for a missing key or a non-object |
| JsValue.Own | src/core/index.js:20-23 | the properties an object spread copies: all fields of an object, none of anything else |
| Core.AsValue | src/core/index.js:44-55 | the action object has exactly the properties `type` and `payload`; `payload` is the action's payload, and `type` is the string type or a symbol |
| Core.IsDependencyFor | src/core/index.js:15-17 | an action is aimed at `key` exactly when it carries the marker and its type is a registered symbol whose key is `dataTree.` followed by `key` |
| Core.SubAction | src/core/index.js:48-56 | the dependency action built for `name` carries the marker, is aimed at `name`, and carries the payload |
| Core.Merge | src/core/index.js:19-25 | object spread: the keys are the union, keys of the later object win, other keys keep their earlier values |
| Core.Listen | src/core/index.js:13-28 | non-dependency actions go to the reducer, whose result (or throw) is the result; a marked action with a string type throws; a dependency action aimed at the key throws on a nullish state and yields an object otherwise |
| Core.ListenFor | src/core/index.js:10-11 | `listenFor` throws exactly for a non-string key; otherwise every enhanced reducer behaves as `Listen` for that key |
| Core.DependencyActionMerges | src/core/index.js:19-25 | the new state keeps every field but `entities`; `entities` is the old entities merged with the payload, payload keys winning |
| Core.MissingEntitiesIsEmpty | src/core/index.js:19-25 | for an object state without `entities` and an object payload, the new `entities` is the payload itself |
| Core.SubActionTargetsItsKey | src/core/index.js:15-17 | the dependency action built for name `n` reaches the listener for `key` exactly when `key == n` |
| Core.FirstInvalid | src/core/index.js:36-42 | the index of the first entry whose value is neither string nor function, or the length when there is none |
| Core.TypeName | src/core/index.js:39 | the `typeof` name reported for a rejected value is never `string` or `function` |
| Core.CheckDependencyObject | src/core/index.js:36-42 | passes exactly when every value is a string or a function; otherwise throws naming the first offending key and its `typeof` |
| Core.Extract | src/core/index.js:51-55 | a function dependency yields (or throws) what the function does on the action; a string dependency either resolves to a value other than `undefined` or fails with `PathNotFound` for its own selector |
| Core.Dependents | src/core/index.js:47-58 | at most one dependency action per entry, and exactly one per entry when no resolver fails |
| Core.DependentsContents | src/core/index.js:47-58 | action `i` is the marked action typed `dataTree.<key i>` carrying entry `i`'s extracted value; a failure is the error of the entry just after the dispatched ones |
| Core.FailureStops | src/core/index.js:47-58 | when entry `j` fails, nothing from entry `j` on is dispatched |
| Core.Store.Dispatch | src/core/index.js:57 | `store.dispatch` appends the action to the log |
| Core.Store.Forward | src/core/index.js:60 | `next(action)` appends the forwarded action to the log and returns the action |
| Core.DataDispatch | src/core/index.js:44-61 | a rejected mapping throws before anything is dispatched; otherwise the log gains the dependency actions of `Dependents` in order, then the original action unless a dependency threw |
| Core.SameResultsSamePlan | src/core/index.js:51-55 | two mappings with the same keys whose extractors give the same results produce the same dependency actions |
| Core.FnReplacesPath | src/core/index.js:51-55 | replacing a string dependency with a function that returns or throws the same thing changes nothing |
| Core.DispatchedReachesOwnListener | src/core/index.js:15-17 | with distinct keys, dependency action `i` reaches the listener for key `j` exactly when `i == j` |
| Core.SingleDependencyPlan | src/core/index.js:47-58 | a one-entry mapping whose extractor succeeds dispatches exactly one dependency action |
| Core.TestReducer | test/unit/core.spec.js:22-29 | the test reducer never throws; `'foo'` copies the state (`{}` when missing) and sets `a` to 1; any other action returns the state unchanged |
| Core.ListenPassesOtherActions | test/unit/core.spec.js:72-97 | plain actions and dependency actions for another key go to the reducer unchanged |
| Core.ListenMergesMatchingAction | test/unit/core.spec.js:79-90 | a `dataTree.key` action sets `entities` to the payload and keeps `_x` |
| Core.SetupTree | test/unit/core.spec.js:100-120 | what a fresh store receives: nothing on a rejected mapping; the dependency actions, then the original action |
| Core.NumberDependencyRejected | test/unit/core.spec.js:101-106 | `{ user: 5 }` is rejected, naming `user` and `number` |
| Core.NoDependencies | test/unit/core.spec.js:108-120 | an empty mapping passes the check and dispatches no dependency action |
| Core.UsersPathResolves | test/unit/core.spec.js:136 | `'payload.entities.users'` resolves against the test action to the users |
| Core.PathUserPlan | test/unit/core.spec.js:122-140 | `{ user: 'payload.entities.users' }` dispatches one action typed `dataTree.user` carrying the users |
| Core.UsersOf | test/unit/core.spec.js:156 | `action => action.payload.entities.users` throws exactly when the payload or its `entities` is `undefined` or `null`, and otherwise returns `payload.entities.users` |
| Core.FnUserPlan | test/unit/core.spec.js:142-160 | `{ user: action => action.payload.entities.users }` dispatches the same action |
| Core.FnDependencyThrows | src/core/index.js:47-58 | that function dependency on an action without a payload throws before any dependency action is dispatched |

## Left out

- lib/ holds the transpiled copy of src/ and is not modelled separately.
- src/index.js is not part of this model; `setupTree` is taken to be `dataDispatch` with `next` set to the store's dispatch.
- Redux itself is not modelled: no currying of `store => next => action`, no mock store, no real reducers. The store is a log of what it received, and `next` returns the action it was given.
- The symbol registry is abstracted: an action type is a registered symbol (by key), an unregistered symbol, or a string. `DATA_TREE_ID` becomes a boolean marker on the action.
- Actions have exactly a marker, a type and a payload. Other fields are not modelled, and neither is an action without a `type`.
- JsValue.Get: a property read on `undefined`, `null` or another primitive yields `undefined` in the model. In JavaScript, reading from `undefined` or `null` throws its own TypeError, so the resolver then fails with that error instead of its own; strings have properties such as `length`. There is no prototype chain. The test function dependency `Core.UsersOf` models its two throwing reads explicitly.
- A dependency function or a reducer that mutates the action or the state is not modelled: the model works on values, so a later dependency always sees the action as it was passed in.
- Spreading a non-object (`...'ab'`) is modelled as spreading nothing.
- Arrays, floating-point numbers and functions stored as values are not modelled. Numbers are integers, and a non-string key passed to `listenFor` is one of the modelled values.
- The order of `Object.keys` is the order of the mapping's entries. JavaScript's reordering of integer-like keys is not modelled, and distinct keys are a precondition.
- Error messages are recorded by their arguments, not by their text.
- `split` with an empty separator is not modelled; a non-empty separator is required.
- Utils.SplitConcat: stated for a one-character separator only, because a self-overlapping multi-character separator does not split compositionally ("aa" around "a").
- Utils.ResolveSelectorConcat: stated for a one-character separator only, for the same reason.
- Utils.CustomSeparator: stated for a one-character separator absent from the selector only, for the same reason.
- That the reducer is pure and does not mutate `state` or `action` holds by construction, since the model works on values.
- test/unit/spec.js targets an older state layout and is not modelled.
