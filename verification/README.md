# component-emitter: the listener registry

`component-emitter` lets an object subscribe callbacks to named events and
fire them. Both variants in the repository keep one dictionary,
`_callbacks`, that maps a channel key to an ordered array of callbacks. Both
offer the same operations:

- `on` appends a callback;
- `once` registers a self-removing wrapper that records the original in its
  `fn` property;
- `off` removes everything, one channel, or the first entry that is the
  callback or wraps it;
- `emit` copies a channel's array and calls each entry of the copy;
- `listeners`, `hasListeners` and (`EventEmitter3.mjs` only) `eventNames`
  query the registry.

This project models both variants in Dafny and proves what they promise.

| file | module | models |
|---|---|---|
| `listeners.dfy` | `Listeners` | callback identities, the removal test `cb === fn \|\| cb.fn === fn`, the first-match scan and `splice` |
| `component_emitter.dfy` | `ComponentEmitter` | `index.js`: the registry as values, and the class `Emitter` whose methods update `_callbacks` in place |
| `component_emitter_properties.dfy` | `ComponentEmitterProperties` | splitting, fan-out, `off`, the two snapshot dispatches of `emit`, test scenarios |
| `component_emitter_once.dfy` | `ComponentEmitterOnce` | a `once` wrapper of `index.js` runs at most once |
| `emitter3.dfy` | `Emitter3` | `EventEmitter3.mjs`: the registry as values, and the class `EventEmitter3` |
| `emitter3_properties.dfy` | `Emitter3Properties` | no empty arrays, round trips, snapshot dispatch, test scenarios, at most once |

How the model represents the source:

- A callback is an identity. `Fn(id)` is a function supplied by the host
  program. `OnceWrapper(serial, event, fn)` is the closure `once` creates:
  - `serial` is a fresh identity taken from a counter in the registry;
  - `event` is the argument it captured;
  - `fn` is the original callback.
- What a listener does to the registry when called is a list of effects:
  `on`, `once`, `off` with any argument form, or a throw. A throw aborts the
  rest of the dispatch, as an exception escaping `callback.apply` does.
- Each variant's methods are proved against value-level functions
  (`AfterOn`, `AfterOff`, `Emitted`, ...). Each method's `ensures` says its
  new state is that function of its old state. The properties are then
  proved about those functions.

Differences between the variants that the model keeps:

- `index.js`:
  - stores a channel under the key `'$' + name`;
  - splits a string event on spaces, or takes an array as it is, and
    applies `on`/`off` to each token;
  - creates `_callbacks` lazily, on the first `on`, `once`, `listeners` or
    `hasListeners`, so `off` and `emit` do nothing until `_callbacks`
    exists;
  - never deletes an array that `off(event, fn)` emptied;
  - has `emit` dispatch to the named channel and then to the wildcard
    channel `"*"`, whose copy is taken only after the first dispatch has
    finished.
- `EventEmitter3.mjs`:
  - uses plain keys;
  - has `off` with a falsy event (omitted or `""`) clear everything;
  - deletes a channel's array as soon as it becomes empty, so no key ever
    maps to an empty array;
  - has `emit` return `undefined` for a channel without an array.

Where the comments and the code of `index.js` disagree, the model follows
the code:

- The comment above `on` says it returns the emitter, but the function
  returns nothing (`index.js:43-49`). `Emitter.On` therefore has no result.
- `emit` returns `undefined` until `_callbacks` exists
  (`index.js:156-158`), which `listeners` also brings about
  (`index.js:186`). `Emit` reports this through `chained`.

## Model

| member | source | states |
|---|---|---|
| Listeners.FirstMatch | EventEmitter3.mjs:81-83 | the result is -1 or an index in range; the entry there matches; no earlier entry matches, and with -1 none does |
| Listeners.FindIndex | index.js:123-130 | the scan loop returns exactly the first matching index, or -1 |
| Listeners.RemoveFirstCharacterized | index.js:124-129 | with no match nothing changes; otherwise exactly the first matching entry is cut out and the others keep their order |
| Listeners.RemoveFirstShrinks | EventEmitter3.mjs:84-86 | removal never adds an entry, removes at most one, and removes one exactly when some entry matches |
| Listeners.MatchesOnlyItself | EventEmitter3.mjs:82 | when only the wrapper carries its identity, the test `cb === fn \|\| cb.fn === fn` for the wrapper selects the wrapper and nothing else |
| Listeners.RemovingTheOnlyCopy | EventEmitter3.mjs:39-41 | when a once wrapper is held at most once and nothing else carries its identity, its own `off(event, on)` leaves no copy of it in the array |
| ComponentEmitter.Split | index.js:45 | splitting yields at least one piece and no piece contains the separator |
| ComponentEmitter.Emitter.constructor | index.js:14-16 | a new emitter has no `_callbacks` and no channels |
| ComponentEmitter.Emitter.AddOne | index.js:51-56 | `_callbacks` comes into existence and `fn` is pushed on the array under `'$' + name`, which is created if missing |
| ComponentEmitter.Emitter.On | index.js:43-49 | the loop over the tokens leaves the registry as one `_addOneEventListener` per token |
| ComponentEmitter.Emitter.Once | index.js:67-76 | registers a fresh wrapper whose `fn` is `fn` on every token; the wrapper is returned so it can be named |
| ComponentEmitter.Emitter.RemoveOne | index.js:107-132 | no `_callbacks` or no array: no change; no `fn`: the key is deleted; otherwise the first match is spliced out and the array stays even if empty |
| ComponentEmitter.Emitter.Off | index.js:88-105 | no `_callbacks`: no change; no arguments: `_callbacks` becomes empty; otherwise one removal per token |
| ComponentEmitter.Emitter.Perform | index.js:141 | a listener body's effects run in order and a throw stops it |
| ComponentEmitter.Emitter.Invoke | index.js:68-71 | a wrapper first calls `off(event, on)` with its captured event, then the original |
| ComponentEmitter.Emitter.CallAll | index.js:135-143 | calls the entries of the copy in order, stopping at a throw, and reports those called |
| ComponentEmitter.Emitter.Emit | index.js:155-175 | nothing until `_callbacks` exists; otherwise the named channel's copy, then the wildcard channel's copy; returns the emitter only when nothing threw |
| ComponentEmitter.Emitter.Listeners | index.js:185-188 | creates `_callbacks` if missing, changes nothing else, and returns the channel's array or `[]` |
| ComponentEmitter.Emitter.HasListeners | index.js:198-200 | true exactly when the channel's array is non-empty |
| ComponentEmitterProperties.JoinSplit | index.js:45 | gluing the pieces of a split back with spaces gives the original string |
| ComponentEmitterProperties.SplitJoin | index.js:45 | splitting pieces glued with spaces gives back those pieces, when none contains a space |
| ComponentEmitterProperties.SplitWithoutSeparator | index.js:45 | a name without a space is its own single token |
| ComponentEmitterProperties.KeysDistinct | index.js:53 | distinct names are stored under distinct `'$'` keys |
| ComponentEmitterProperties.AddAllAppendsPerToken | index.js:46-48 | every name receives `fn` once per occurrence among the tokens, at the end of its array; the others are unchanged |
| ComponentEmitterProperties.OnFansOut | index.js:43-49 | `on(text, fn)` appends `fn` to each space-separated token's channel, once per occurrence, and leaves all other channels unchanged |
| ComponentEmitterProperties.OnSingleNameAppends | index.js:51-56 | `on(name, fn)` puts `fn` at the end of that channel and changes no other channel |
| ComponentEmitterProperties.OnSingleName | index.js:51-56 | `on` with a space-free name is one `_addOneEventListener` |
| ComponentEmitterProperties.OffSingleName | index.js:100-103 | `off` with a space-free name is one `_removeOneEventListener` |
| ComponentEmitterProperties.OffAllSilencesEveryEmit | index.js:96-99 | `off()` empties `_callbacks`, and any emit afterwards calls nothing and changes nothing |
| ComponentEmitterProperties.RemoveAllWithoutFnDeletesKeys | index.js:116-120 | `off(event)` deletes exactly the keys of its tokens |
| ComponentEmitterProperties.RemoveOneTakesFirstMatch | index.js:122-131 | the channel loses only its first matching entry, its key remains, and every other channel is unchanged |
| ComponentEmitterProperties.EmptiedChannelKeepsItsKey | index.js:122-131 | `on('foo', f)` then `off('foo', f)` leaves `'$foo'` mapped to `[]`, with no listeners |
| ComponentEmitterProperties.DispatchedCallsSnapshot | index.js:139-142 | the entries called are a prefix of the copy; all of it unless a listener threw |
| ComponentEmitterProperties.EmitCallsChannelThenWildcard | index.js:172-173 | emit calls the named channel's array as it was at entry, then the wildcard channel's array as it was after that dispatch, whatever the listeners change |
| ComponentEmitterProperties.EventObjectDispatchesByType | index.js:162-165 | an event object is dispatched on its `type`, or on `[object Object]` when it has none |
| ComponentEmitterProperties.OffDuringEmitTakesEffectNextTime | test/emitter.js:91-106 | a listener that calls `off` on a later listener does not stop it in this emit, but does in the next |
| ComponentEmitterProperties.FirstEmitRemovesListener | index.js:134-143 | with A then B on a channel and A calling `off(c, B)`, one emit calls A and B, from the copy, and leaves only A registered |
| ComponentEmitterProperties.SecondEmitCallsFirstOnly | index.js:134-143 | once B is gone, the next emit calls only A, whose `off` finds nothing to remove |
| ComponentEmitterProperties.OnDuringEmitTakesEffectNextTime | index.js:139 | a listener added during an emit is first called by the next emit |
| ComponentEmitterProperties.FirstEmitAddsListener | index.js:134-143 | A calling `on(c, C)` during an emit appends C behind A but the emit calls only A |
| ComponentEmitterProperties.SecondEmitCallsBoth | index.js:134-143 | the next emit calls A and then C |
| ComponentEmitterProperties.WildcardHearsEverything | index.js:173 | a `"*"` listener hears every emit, and hears `emit("*")` twice |
| ComponentEmitterProperties.OnceWithRepeatedTokenRunsTwice | index.js:67-76 | `once("a a", f)` then `emit("a")` calls the wrapper twice: a repeated token registers it twice and both copies are in the snapshot |
| ComponentEmitterProperties.RepeatedWrapperRunsTwice | index.js:67-76 | with two copies of the wrapper on channel "a", `emit("a")` calls both, although the first call's `off("a a", on)` empties the channel |
| ComponentEmitterOnce.SelfRemovalEmptiesWrapper | index.js:69 | the wrapper's `off(event, on)` removes it from every channel it was registered on |
| ComponentEmitterOnce.EmittedKeepsTracked | index.js:155-175 | one emit calls a tracked wrapper at most once, and if it does, no copy of the wrapper remains |
| ComponentEmitterOnce.OnceTracksItsWrapper | index.js:67-76 | after `once` with distinct tokens, its wrapper is on each token's channel exactly once and nowhere else |
| ComponentEmitterOnce.OnceRunsAtMostOnce | index.js:67-76 | a wrapper from `once` with distinct tokens is called at most once over any trace of emits, host calls of `on`/`once`/`off` and `listeners` lookups, whatever `on`/`once`/`off`/throw effects each emit's listeners perform, as long as nobody registers the wrapper again |
| Emitter3.Initial | EventEmitter3.mjs:9 | the constructor's registry has no empty arrays and no listeners on any channel |
| Emitter3.EventEmitter3.constructor | EventEmitter3.mjs:8-11 | a new emitter holds the initial, empty registry |
| Emitter3.EventEmitter3.On | EventEmitter3.mjs:22-27 | `fn` is pushed on the channel's array, which is created if missing; the emitter is returned |
| Emitter3.EventEmitter3.Once | EventEmitter3.mjs:38-47 | a fresh wrapper whose `fn` is `fn` is registered on the channel |
| Emitter3.EventEmitter3.Off | EventEmitter3.mjs:60-95 | each `off` case as the code takes it, keeping the no-empty-arrays invariant |
| Emitter3.EventEmitter3.Perform | EventEmitter3.mjs:113 | a listener body's effects run in order and a throw stops it |
| Emitter3.EventEmitter3.Invoke | EventEmitter3.mjs:39-42 | a wrapper first calls `off(event, on)`, then the original |
| Emitter3.EventEmitter3.Emit | EventEmitter3.mjs:105-117 | nothing for a channel without an array; otherwise the frozen copy is called in order; returns the emitter only when the channel existed and nothing threw |
| Emitter3.EventEmitter3.Listeners | EventEmitter3.mjs:127-129 | the channel's own array when it exists, otherwise `[]`; non-empty exactly when the channel exists |
| Emitter3.EventEmitter3.HasListeners | EventEmitter3.mjs:139-141 | true exactly when `listeners` is non-empty, and exactly when the channel is among `eventNames()` |
| Emitter3.EventEmitter3.EventNames | EventEmitter3.mjs:149-151 | the keys returned are exactly the channels that have listeners |
| Emitter3Properties.OnAppends | EventEmitter3.mjs:22-27 | `on` appends `fn` at the end of its channel and leaves the others unchanged |
| Emitter3Properties.OffFalsyEventClearsAll | EventEmitter3.mjs:65-68 | `off` with an omitted or empty event empties the registry |
| Emitter3Properties.OffChannelDeletesOnlyIt | EventEmitter3.mjs:75-78 | `off(event)` deletes that key and no other |
| Emitter3Properties.OffRemovesFirstMatch | EventEmitter3.mjs:71-92 | `off(event, fn)` leaves on that channel exactly the old array minus its first entry that is `fn` or wraps it; the key stays exactly when entries remain; other channels are untouched |
| Emitter3Properties.OffWithoutMatchChangesNothing | EventEmitter3.mjs:71-92 | `off(event, fn)` on an unknown channel, or one where no entry is `fn` or wraps it, leaves the emitter as it was |
| Emitter3Properties.ApplyKeepsNoEmptyBuckets | EventEmitter3.mjs:88-92 | no operation leaves a key mapped to an empty array |
| Emitter3Properties.EmittedKeepsNoEmptyBuckets | EventEmitter3.mjs:105-117 | an emit, whatever its listeners do, leaves no empty array |
| Emitter3Properties.EventNamesAreChannelsWithListeners | test/EventEmitter3_Test.mjs:157-180 | under the invariant, a key is present exactly when its channel has listeners |
| Emitter3Properties.OnThenOffRestores | EventEmitter3.mjs:81-92 | `on(event, fn)` then `off(event, fn)` restores the registry when `fn` was not yet matched there |
| Emitter3Properties.OnceThenOffRestores | test/EventEmitter3_Test.mjs:105-118 | `once(event, fn)` then `off(event, fn)` removes the wrapper through its `fn`, restoring the channels |
| Emitter3Properties.DispatchedCallsSnapshot | EventEmitter3.mjs:111-114 | the entries called are a prefix of the frozen copy; all of it unless a listener threw |
| Emitter3Properties.EmitCallsEntrySnapshot | EventEmitter3.mjs:106-114 | emit calls exactly the channel's array as it was at entry, whatever the listeners change |
| Emitter3Properties.EmitUnknownChannelIsNoOp | EventEmitter3.mjs:106-110 | emit on a channel without an array calls nothing and changes nothing |
| Emitter3Properties.OffAllSilencesEveryEmit | test/EventEmitter3_Test.mjs:183-203 | after `off()` every emit calls nothing |
| Emitter3Properties.OffDuringEmitTakesEffectNextTime | EventEmitter3.mjs:111-114 | a listener that calls `off` on a later listener does not stop it in this emit, but does in the next |
| Emitter3Properties.OffFromListenerStopsEarlierListener | test/EventEmitter3_Test.mjs:120-136 | with B registered before A and A calling `off(c, B)`, the first emit calls B then A and leaves only A; the next calls A alone |
| Emitter3Properties.OnDuringEmitTakesEffectNextTime | EventEmitter3.mjs:111 | a listener added during an emit is first called by the next emit |
| Emitter3Properties.DuplicatesAreKept | EventEmitter3.mjs:24-25 | registering the same function twice makes emit call it twice |
| Emitter3Properties.OnceRemovedByOriginal | test/EventEmitter3_Test.mjs:105-118 | `once('foo', one)`, `once('fee', one)`, `off('foo', one)`, then `emit('foo')` calls nothing |
| Emitter3Properties.SelfRemovalEmptiesWrapper | EventEmitter3.mjs:40 | the wrapper's `off(event, on)` removes its only copy |
| Emitter3Properties.EmittedKeepsTracked | EventEmitter3.mjs:105-117 | one emit calls a tracked wrapper at most once, and if it does, the wrapper is gone afterwards |
| Emitter3Properties.OnceRunsAtMostOnce | EventEmitter3.mjs:38-47 | a wrapper from `once` is called at most once over any trace of emits and host calls of `on`/`once`/`off`, whatever `on`/`once`/`off`/throw effects each emit's listeners perform, as long as nobody registers the wrapper again |
| Emitter3Properties.ReRegisteredWrapperRunsTwice | EventEmitter3.mjs:127-129 | a host that reads the wrapper back through `listeners` and registers it again after it ran sees it called a second time |

## Left out

- Emitting from inside a listener is not modelled: a listener body may call `on`, `once` and `off`, or throw, but not `emit`.
- Listener arguments, the payload and the `this` binding of `apply` are left out. Only which entries are called, and in what order, is observable in the model.
- The mixin form is left out: the constructor's decorator argument, `Object.assign` onto a given object, and `mixin` in `index.js`. It copies methods by reflection and does not touch the registry logic.
- Registries shared through the prototype chain are left out. They are a property of the JavaScript object model.
- The method aliases (`addEventListener`, `removeListener`, `trigger`, `dispatchEvent`, ...) are the same functions under other names.
- In `index.js`, `emit` also writes `target`, `extraParams` and `data` into the event object it is given. The model keeps only the channel it dispatches to.
- `listeners` returns the live array. Mutating it from outside the emitter is not modelled.
- In `index.js`, the array event captured by a `once` wrapper is treated as a value. The wrapper holds that array by reference (`index.js:68-69`), so a host that changes it after `once` makes the wrapper's `off` remove from other channels than it registered on.
- `Emitter3.EventEmitter3.EventNames`: the keys are returned as a set, so their insertion order is not modelled.
- In `index.js`, an `undefined` event makes three operations throw a `TypeError`: `on(undefined, fn)` on `event.push` (`index.js:45`), `emit(undefined)` on `event.type` once `_callbacks` exists (`index.js:163`), and `off(undefined, fn)` on `event.push` once `_callbacks` exists (`index.js:92-94`, `index.js:100`). The model's event arguments are always present: `off` takes either no arguments or an event.
- Array events with non-string elements, and JavaScript string coercion of keys, are left out. Names are strings.
- Callbacks are compared by identity. A function object with a hand-set `fn` property that is not a `once` wrapper cannot be expressed.
- `ComponentEmitterOnce.OnceRunsAtMostOnce`: holds only when the event given to `once` names each channel once. With a repeated token the wrapper runs once per copy, as `ComponentEmitterProperties.OnceWithRepeatedTokenRunsTwice` shows.
- `ComponentEmitterOnce.OnceRunsAtMostOnce` and `Emitter3Properties.OnceRunsAtMostOnce`: JavaScript guarantees that the wrapper is a fresh identity that no existing entry carries. The lemmas also assume that neither a listener body nor the host registers the wrapper itself again. Both can read it back through `listeners` (`index.js:185-188`, `EventEmitter3.mjs:127-129`) and pass it to `on`, and then it runs again, as `Emitter3Properties.ReRegisteredWrapperRunsTwice` shows.
- `ComponentEmitterOnce.OnceRunsAtMostOnce` and `Emitter3Properties.OnceRunsAtMostOnce`: within one emit, a listener called twice does the same thing both times, because one `Behaviour` describes every listener during that emit. Different emits may each have their own.
- `ComponentEmitterOnce.OnceRunsAtMostOnce` and `Emitter3Properties.OnceRunsAtMostOnce`: hold only because no listener body emits, which the model does not express. In both variants, take `once('c', B)` where B calls `emit('c')`, then `once('c', f)`, then `emit('c')`. The outer emit copies `[wB, wf]` (`index.js:139-141`, `EventEmitter3.mjs:111-113`). `wB` removes itself and calls B, whose inner emit copies `[wf]`; there `wf` removes itself and calls f. The outer loop then calls `wf` from its own copy: its `off` finds nothing and f runs a second time (`index.js:68-70`, `EventEmitter3.mjs:39-41`).
