# useOptimism: optimistic change batching, modelled in Dafny

The hook `useOptimism` (packages/react/src/hooks/useOptimism.ts) sits between a
graph editor and the application that owns its nodes and edges. Change records
from the editor are applied at once to a local copy of the node (or edge)
collection through the reducer `applyNodeChanges` (`applyEdgeChanges`), and they
are also appended to a pending queue. A flush registered with the host's
`requestIdleCallback` later drains that queue and hands the whole batch, even an
empty one, to the caller's sink `props.onNodesChange` (`props.onEdgesChange`).
When the sink's identity changes, the cleanup of the flush effect cancels the
outstanding request, and then a new request is made. When the props collection
changes identity, the local collection is re-seeded from it.

The model has three modules:

- `Batching` (batching.dfy) holds the two pure update expressions. `Fold` is the
  left fold of change batches through a reducer. It is what repeated
  `setNodes(nodes => applyNodeChanges(changes, nodes))` computes. `Flatten` is the
  concatenation of batches. It is what repeated
  `setNodeChanges(old => old.concat(changes))` computes. Lemmas relate the two
  to appending a batch, and relate the fold to one bulk application of the
  joined records.
- `Optimism` (optimism.dfy) holds the hook itself.
  - `Stream<T, C>` is one collection's half of the hook: the local collection,
    its pending queue and its reducer. It is instantiated twice, once for nodes
    and once for edges, because the source repeats the same code for the two.
    Its ghost fields record the last seed, the batches taken in since that seed,
    the batches since the last flush, every batch ever taken in, and a log of
    the batches handed to sinks. `Stream.Valid` ties the real slots to that
    history. The collection is the seed with every later batch folded in. The
    queue is the concatenation of the batches since the last flush. Every record
    taken in has been delivered or is still queued, exactly once and in order.
  - `Hook` holds the two streams and each flush effect's `handle` variable. It
    also holds the host's outstanding idle requests (`pending`, a map from handle
    to the callback the request will run, with the sink and timeout its closure
    captured), the host's handle counter, and the dependencies the last render
    saw. React's machinery becomes explicit event methods. The constructor is the
    mount. `ReseedNodes` and `ReseedEdges` are the re-seed effects.
    `OnNodesChange` and `OnEdgesChange` are the intake callbacks.
    `RegisterNodeFlush` and `RegisterEdgeFlush` set up the flush effects.
    `CancelNodeFlush` and `CancelEdgeFlush` clean them up. `Teardown` is the
    unmount. `Render` compares dependency identities and runs the effects whose
    dependencies changed. `Fire` is the host running one idle request.
- `Scenarios` (scenarios.dfy) holds client methods. Each one drives a fresh hook
  through one event order and proves the outcome from the contracts alone.

External inputs are parameters. The reducers are arbitrary total functions, and
`Node`, `Edge`, `NodeChange` and `EdgeChange` are type parameters. A sink is known
only by its identity (`SinkId`). A props collection is a `Ref` carrying an
identity and a value. Which outstanding request the host runs, and when, is the
caller's choice of `Fire(h)`.

Behaviour the model keeps from the code:

- Render returns the collections as they stood before its effects ran. So the
  first render returns empty collections, from the `useState([])` initial values
  at lines 16-17. The re-seed happens in an effect after that render.
- Firing never reschedules. After a flush has run, later intake stays queued
  until a new request exists, and a new request is made only when that queue's
  sink changes identity.
- `timeout` is not among the dependencies of the flush effects (lines 44, 54).
  A render that changes only `timeout` keeps the outstanding requests, each with
  the timeout it captured.
- A re-seed discards local optimistic changes but leaves them queued. They are
  still delivered by the next flush.

The flush effects also list the state setters `setNodeChanges` and
`setEdgeChanges` as dependencies (lines 44, 54). React keeps setters stable, so
only a change in sink identity re-registers a flush.

## Model

| member | source | states |
|---|---|---|
| `Batching.FlattenSnoc` | packages/react/src/hooks/useOptimism.ts:27 | appending one batch to the taken-in batches appends exactly its records, in order, after all earlier records |
| `Batching.FoldSnoc` | packages/react/src/hooks/useOptimism.ts:28 | taking in one more batch is exactly one more reducer call on the previously folded collection (left fold, arrival order) |
| `Batching.FoldIsBulkApply` | packages/react/src/hooks/useOptimism.ts:28 | for a reducer that applies each record in order (empty batch is identity, two batches in turn equal their concatenation), the local collection is the seed with every record taken in since that seed applied at once; the pending queue equals those records only while no flush has happened since the seed |
| `Optimism.Cancelled` | packages/react/src/hooks/useOptimism.ts:43 | cancelling a handle removes exactly that request and keeps every other one unchanged; cancelling an already-run handle or no handle changes nothing |
| `Optimism.Stream.constructor` | packages/react/src/hooks/useOptimism.ts:16-19 | a collection slot and its queue both start empty, and the history invariant holds |
| `Optimism.Stream.Reseed` | packages/react/src/hooks/useOptimism.ts:20-25 | the collection is replaced wholesale by the new external value; the queue, the flush history and the delivery log are unchanged |
| `Optimism.Stream.Intake` | packages/react/src/hooks/useOptimism.ts:26-33 | the queue becomes the old queue followed by the batch; the collection becomes the reducer applied to the batch and the old collection; the invariant (collection is the left fold since the seed, queue is the concatenation since the last flush) is kept |
| `Optimism.Stream.Drain` | packages/react/src/hooks/useOptimism.ts:38-41 | the sink is handed exactly the current queue, which is the concatenation of every batch since the last flush, empty or not; the queue is empty afterwards; the log grows by that one delivery; the collection is unchanged |
| `Optimism.Hook.HandlesValid` | packages/react/src/hooks/useOptimism.ts:36-54 | the handle invariant (handles never reused; every outstanding request is the one its effect set up last) implies at most one outstanding request per queue |
| `Optimism.Hook.Valid` | packages/react/src/hooks/useOptimism.ts:15-54 | the whole-hook invariant (both stream invariants and the handle invariant) implies at most one outstanding request per queue |
| `Optimism.Hook.constructor` | packages/react/src/hooks/useOptimism.ts:15-19 | on mount both collections, both queues and their seed and fold histories are empty, no request is outstanding and no render has been seen |
| `Optimism.Hook.ReseedNodes` | packages/react/src/hooks/useOptimism.ts:23-25 | the local nodes become the new external nodes; the node queue and its history are unchanged; the hook's own fields and the edge stream are unchanged |
| `Optimism.Hook.ReseedEdges` | packages/react/src/hooks/useOptimism.ts:20-22 | the local edges become the new external edges; the edge queue is unchanged; node state and the hook's fields are unchanged |
| `Optimism.Hook.OnNodesChange` | packages/react/src/hooks/useOptimism.ts:26-29 | the node queue becomes old queue followed by the changes; the local nodes become `applyNodeChanges(changes, old nodes)`; the edge stream, handles and requests are unchanged |
| `Optimism.Hook.OnEdgesChange` | packages/react/src/hooks/useOptimism.ts:30-33 | the edge queue becomes old queue followed by the changes; the local edges become `applyEdgeChanges(changes, old edges)`; node state, handles and requests are unchanged |
| `Optimism.Hook.CancelNodeFlush` | packages/react/src/hooks/useOptimism.ts:43 | the node request is cancelled, so no node request remains; edge requests are unchanged; no queue, collection or log changes (no drain, no sink call) |
| `Optimism.Hook.CancelEdgeFlush` | packages/react/src/hooks/useOptimism.ts:53 | the edge request is cancelled, so no edge request remains; node requests are unchanged; no queue, collection or log changes |
| `Optimism.Hook.RegisterNodeFlush` | packages/react/src/hooks/useOptimism.ts:36-44 | the previous node request is cancelled first; a request with a fresh, never-used handle is added that flushes the node queue to the given sink; it is then the only node request; edge requests and both streams are unchanged |
| `Optimism.Hook.RegisterEdgeFlush` | packages/react/src/hooks/useOptimism.ts:46-54 | the previous edge request is cancelled first; a fresh request that flushes the edge queue to the given sink becomes the only edge request; node requests and both streams are unchanged |
| `Optimism.Hook.Fire` | packages/react/src/hooks/useOptimism.ts:37-51 | running an outstanding node (edge) request hands its captured sink exactly the pending queue, which is the concatenation of every batch since the last flush, empties that queue, keeps its collection, seed and fold history, and leaves the other stream unchanged; a cancelled or already-run handle does nothing; no request is scheduled and no handle changes |
| `Optimism.Hook.Teardown` | packages/react/src/hooks/useOptimism.ts:43-53 | unmount cancels both requests, so no request of the hook is outstanding; queues and collections are unchanged |
| `Optimism.Hook.RunFlushEffects` | packages/react/src/hooks/useOptimism.ts:36-54 | a flush effect re-registers exactly when its sink identity changed (or on the first render), and its new request captures the current sink and timeout; otherwise its handle and requests are unchanged, even if `timeout` changed; new handles are taken from the counter in source order (node effect first), the counter advances by exactly the number of registrations, and every new request's handle is at or above the old counter, so no handle that ran or was cancelled earlier can come back |
| `Optimism.Hook.RunReseedEffects` | packages/react/src/hooks/useOptimism.ts:20-25 | a collection is re-seeded exactly when its props identity changed (or on the first render), and then its fold history restarts from the new seed; otherwise collection, seed and fold history are kept; queues, flush histories and logs are unchanged |
| `Optimism.Hook.Render` | packages/react/src/hooks/useOptimism.ts:15-56 | a render returns the collections as they stood before its effects, then runs the effects whose dependencies changed; each collection and its seed and fold history are re-seeded or kept accordingly; the flush effects re-register exactly when their sink identity changed, with new handles taken from the counter as in `RunFlushEffects`, so handles are never reused across renders; it never touches a queue and never calls a sink |
| `Scenarios.Mount` | packages/react/src/hooks/useOptimism.ts:15-54 | after mount and the first render, the collections are the props' collections, both queues are empty, and one request per queue is outstanding with the current sink and timeout; no sink has been called and no record taken in yet (both delivery logs and intake histories are empty); the first render returned empty collections |
| `Scenarios.RemoveThenAdd` | packages/react/src/hooks/useOptimism.ts:26-41 | two node batches taken in before a flush are both applied in order; the next node flush hands the sink exactly `[remove, add]`; the queue is empty afterwards |
| `Scenarios.EmptyFlush` | packages/react/src/hooks/useOptimism.ts:37-51 | with no intake, each flush still calls its sink, with the empty batch |
| `Scenarios.SinkChangeCancels` | packages/react/src/hooks/useOptimism.ts:36-44 | after the node sink changes identity, the old request does nothing when run, the new request delivers the queued records to the new sink, and the edge request is kept |
| `Scenarios.CancelledHandleStaysDead` | packages/react/src/hooks/useOptimism.ts:36-44 | a node request cancelled by one sink change still does nothing when run after a second sink change |
| `Scenarios.RunHandleStaysDead` | packages/react/src/hooks/useOptimism.ts:36-44 | a node request that has run (delivering the empty batch) does nothing when run again after a later sink change re-registers the flush |
| `Scenarios.FlushReplaysLocalState` | packages/react/src/hooks/useOptimism.ts:26-41 | for a reducer that applies each record in order, the batch the node flush delivers after two intakes is `first + second`, and that batch applied at once to the seed equals the local nodes |
| `Scenarios.TimeoutOnlyKeepsRequests` | packages/react/src/hooks/useOptimism.ts:42-54 | a render that changes only `timeout` keeps both outstanding requests, with the timeout they captured |
| `Scenarios.ReseedOverwrites` | packages/react/src/hooks/useOptimism.ts:23-29 | a new node collection identity discards the locally applied change; the change stays queued, and the next flush still delivers it |
| `Scenarios.TeardownCancelsBoth` | packages/react/src/hooks/useOptimism.ts:43-53 | after unmount neither request runs, and the queued records stay queued |

## Left out

- React's scheduling of state updates and effects is not modelled. `useState`,
  `useEffect`, `useCallback` and `useIsomorphicLayoutEffect` become explicit
  event methods. Each queued `setState` updater is applied at once, in call
  order, and `Render` runs its effects right after returning. A caller may still
  take in changes between two renders.
- Strict mode may call the updater at lines 38-41 twice. That would call the sink
  twice with the same batch. It is not modelled.
- Timing is not modelled: the idle detection of `requestIdleCallback`, the
  `timeout` milliseconds, and `cancelIdleCallback` timing. `timeout` is kept only
  as a value that a request captures. Which outstanding request runs, and when,
  is the caller's choice of `Fire`.
- The host's handles are modelled as a counter private to this hook. The real
  host shares its counter with the whole page, and this model keeps only
  uniqueness.
- The meaning of `applyNodeChanges` and `applyEdgeChanges` is not modelled. They
  are defined outside this file. The model treats them as arbitrary pure total
  functions, and treats `Node`, `Edge`, `NodeChange` and `EdgeChange` as opaque
  type parameters. A reducer that throws is also left out, since the model's
  reducers are total.
- What the sinks do is not modelled. A delivery is recorded in a ghost log as
  the sink identity and the batch. A sink that throws is not modelled.
- Every event after `Teardown` is outside the model: a render, an intake, a
  re-seed or a registration after unmount. The model has no mounted state, so
  its methods accept such calls, but React never renders an unmounted component
  again and ignores its state updates. Only running a cancelled request after
  unmount is meaningful, and it does nothing.
- The dependency list at line 33 names `setNodes` for the edge callback. It has
  no effect, because state setters are stable.
- The setter dependencies `setNodeChanges` and `setEdgeChanges` (lines 44, 54)
  are stable, so they are not compared.
