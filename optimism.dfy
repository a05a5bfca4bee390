/** The optimistic change-batching hook `useOptimism`: local node and edge
    collections updated at once through a reducer, two pending change queues,
    and one idle flush per queue that drains its queue into the caller's sink.

    React's hooks are replaced by explicit events: the constructor is the
    mount (initial `useState` values), `ReseedNodes`/`ReseedEdges` are the two
    re-seed effects, `OnNodesChange`/`OnEdgesChange` are the intake callbacks,
    `RegisterNodeFlush`/`RegisterEdgeFlush` and `CancelNodeFlush`/`CancelEdgeFlush`
    are the setup and cleanup of the two idle-flush effects, `Teardown` is the
    unmount, and `Render` compares dependencies and runs the effects whose
    dependencies changed. The host's idle scheduler is the map `pending` from
    handle to the callback it will run; `Fire` is the host running one. */
module Optimism {
  import opened Batching

  datatype Option<T> = None | Some(value: T)

  /** A handle returned by the host's `requestIdleCallback`. */
  type Handle = nat

  /** The identity of a sink callback (`props.onNodesChange`, `props.onEdgesChange`). */
  type SinkId = nat

  /** A collection handed in through props, with the reference identity React compares. */
  datatype Ref<T> = Ref(id: nat, value: T)

  datatype Props<N, E> = Props(
    nodes: Ref<seq<N>>,
    edges: Ref<seq<E>>,
    onNodesChange: SinkId,
    onEdgesChange: SinkId,
    timeout: Option<int>)

  /** The dependency values the four effects compare between renders. `timeout`
      is not among them. */
  datatype Deps = Deps(nodes: nat, edges: nat, onNodesChange: SinkId, onEdgesChange: SinkId)

  function DepsOf<N, E>(p: Props<N, E>): Deps
  {
    Deps(p.nodes.id, p.edges.id, p.onNodesChange, p.onEdgesChange)
  }

  /** On the first render every effect runs; later, an effect runs when one of its
      dependencies has a new identity. */
  predicate NodesChanged<N, E>(seen: Option<Deps>, p: Props<N, E>)
  {
    seen.None? || seen.value.nodes != p.nodes.id
  }

  predicate EdgesChanged<N, E>(seen: Option<Deps>, p: Props<N, E>)
  {
    seen.None? || seen.value.edges != p.edges.id
  }

  predicate NodeSinkChanged<N, E>(seen: Option<Deps>, p: Props<N, E>)
  {
    seen.None? || seen.value.onNodesChange != p.onNodesChange
  }

  predicate EdgeSinkChanged<N, E>(seen: Option<Deps>, p: Props<N, E>)
  {
    seen.None? || seen.value.onEdgesChange != p.onEdgesChange
  }

  /** The callback an idle request will run, with the sink and timeout its closure captured. */
  datatype IdleCallback = FlushNodes(sink: SinkId, timeout: Option<int>) | FlushEdges(sink: SinkId, timeout: Option<int>)

  /** One batch handed to a sink. */
  datatype Delivery<C> = Delivery(sink: SinkId, batch: seq<C>)

  /** What running an idle request did. */
  datatype Firing<NC, EC> = Skipped | NodesFlushed(sink: SinkId, nodeBatch: seq<NC>) | EdgesFlushed(sink: SinkId, edgeBatch: seq<EC>)

  /** What the hook returns from a render. */
  datatype View<N, E> = View(nodes: seq<N>, edges: seq<E>)

  /** `cancelIdleCallback`: the request with that handle no longer runs; cancelling
      a handle that already ran, or no handle, changes nothing. */
  function Cancelled(pending: map<Handle, IdleCallback>, h: Option<Handle>): (r: map<Handle, IdleCallback>)
    ensures forall k :: k in r <==> k in pending && h != Some(k)
    ensures forall k :: k in r ==> r[k] == pending[k]
  {
    if h.Some? then pending - {h.value} else pending
  }

  /** The outstanding requests that would flush the node queue. */
  function NodeRequests(pending: map<Handle, IdleCallback>): map<Handle, IdleCallback>
  {
    map h | h in pending && pending[h].FlushNodes? :: pending[h]
  }

  /** The outstanding requests that would flush the edge queue. */
  function EdgeRequests(pending: map<Handle, IdleCallback>): map<Handle, IdleCallback>
  {
    map h | h in pending && pending[h].FlushEdges? :: pending[h]
  }

  /** The batches of a delivery log, in delivery order. */
  function Batches<C>(log: seq<Delivery<C>>): seq<seq<C>>
  {
    seq(|log|, i requires 0 <= i < |log| => log[i].batch)
  }

  /** The log-side counterpart of `FlattenSnoc`, used by `Drain`: one more
      delivery adds its batch at the end of the delivered batches. */
  lemma BatchesSnoc<C>(log: seq<Delivery<C>>, d: Delivery<C>)
    ensures Batches(log + [d]) == Batches(log) + [d.batch]
  {
  }


  /** One collection's half of the hook: the local collection (`nodes` or `edges`)
      and its pending change queue (`nodeChanges` or `edgeChanges`), with the
      reducer that applies change batches to it. The ghost fields record the
      history the invariant is stated over. */
  class Stream<T, C> {
    const reduce: (seq<C>, seq<T>) -> seq<T>

    var collection: seq<T>
    var changes: seq<C>

    // The last seed and the batches taken in since it; the batches taken in since
    // the last flush; all batches ever taken in; the batches handed to sinks.
    ghost var seed: seq<T>
    ghost var sinceSeed: seq<seq<C>>
    ghost var sinceFlush: seq<seq<C>>
    ghost var intake: seq<seq<C>>
    ghost var log: seq<Delivery<C>>

    /** The collection is its seed with every later batch applied in arrival
        order; the queue holds exactly the records taken in since the last
        flush; every record taken in was handed to a sink or is still pending,
        exactly once and in order. */
    ghost predicate Valid()
      reads this
    {
      collection == Fold(reduce, sinceSeed, seed) &&
      changes == Flatten(sinceFlush) &&
      Flatten(intake) == Flatten(Batches(log)) + changes
    }

    /** The initial `useState([])` values of both slots. */
    constructor (reduce: (seq<C>, seq<T>) -> seq<T>)
      ensures Valid()
      ensures this.reduce == reduce
      ensures collection == [] && changes == []
      ensures seed == [] && sinceSeed == [] && sinceFlush == [] && intake == [] && log == []
    {
      this.reduce := reduce;
      collection, changes := [], [];
      seed, sinceSeed, sinceFlush, intake, log := [], [], [], [], [];
    }

    /** Re-seed: the collection becomes `xs` wholesale, whatever optimistic
        changes it held; the queue is untouched. */
    method Reseed(xs: seq<T>)
      requires Valid()
      modifies this
      ensures Valid()
      ensures collection == xs && changes == old(changes)
      ensures seed == xs && sinceSeed == []
      ensures sinceFlush == old(sinceFlush) && intake == old(intake) && log == old(log)
    {
      collection := xs;
      seed, sinceSeed := xs, [];
    }

    /** Intake: the batch goes to the end of the queue and is applied to the
        collection at once. */
    method Intake(batch: seq<C>)
      requires Valid()
      modifies this
      ensures Valid()
      ensures changes == old(changes) + batch
      ensures collection == reduce(batch, old(collection))
      ensures seed == old(seed) && sinceSeed == old(sinceSeed) + [batch]
      ensures sinceFlush == old(sinceFlush) + [batch]
      ensures intake == old(intake) + [batch] && log == old(log)
    {
      FoldSnoc(reduce, sinceSeed, batch, seed);
      FlattenSnoc(sinceFlush, batch);
      FlattenSnoc(intake, batch);
      changes := changes + batch;
      collection := reduce(batch, collection);
      sinceSeed := sinceSeed + [batch];
      sinceFlush := sinceFlush + [batch];
      intake := intake + [batch];
    }

    /** The flush updater: the whole queue, empty or not, is handed to `sink`
        and the queue becomes empty; the collection is untouched. */
    method Drain(sink: SinkId) returns (batch: seq<C>)
      requires Valid()
      modifies this
      ensures Valid()
      ensures batch == old(changes) && batch == Flatten(old(sinceFlush))
      ensures changes == [] && sinceFlush == []
      ensures log == old(log) + [Delivery(sink, batch)]
      ensures collection == old(collection) && seed == old(seed) && sinceSeed == old(sinceSeed)
      ensures intake == old(intake)
    {
      batch := changes;
      BatchesSnoc(log, Delivery(sink, batch));
      FlattenSnoc(Batches(log), batch);
      log := log + [Delivery(sink, batch)];
      changes, sinceFlush := [], [];
    }
  }

  /** The hook: the node and edge streams, the `handle` of each idle-flush effect
      while that effect is set up, the host's outstanding idle requests made by this
      hook with the next handle the host hands out, and the dependencies seen by the
      last render. */
  class Hook<N, E, NC, EC> {
    const nodes: Stream<N, NC>
    const edges: Stream<E, EC>

    var nodeHandle: Option<Handle>
    var edgeHandle: Option<Handle>

    var pending: map<Handle, IdleCallback>
    var nextHandle: Handle

    var seen: Option<Deps>

    /** No two outstanding requests flush the same queue. */
    ghost predicate AtMostOneLivePerQueue()
      reads this
    {
      (forall h1, h2 :: h1 in pending && h2 in pending && pending[h1].FlushNodes? && pending[h2].FlushNodes? ==> h1 == h2) &&
      (forall h1, h2 :: h1 in pending && h2 in pending && pending[h1].FlushEdges? && pending[h2].FlushEdges? ==> h1 == h2)
    }

    /** Handles are never reused, and an outstanding request is the one its
        effect set up last. */
    ghost predicate HandlesValid()
      reads this
      ensures HandlesValid() ==> AtMostOneLivePerQueue()
    {
      (forall h :: h in pending ==> h < nextHandle) &&
      (nodeHandle.Some? ==> nodeHandle.value < nextHandle) &&
      (edgeHandle.Some? ==> edgeHandle.value < nextHandle) &&
      (nodeHandle.Some? && edgeHandle.Some? ==> nodeHandle.value != edgeHandle.value) &&
      (forall h :: h in pending && pending[h].FlushNodes? ==> nodeHandle == Some(h)) &&
      (forall h :: h in pending && pending[h].FlushEdges? ==> edgeHandle == Some(h))
    }

    ghost predicate Valid()
      reads this, nodes, edges
      ensures Valid() ==> AtMostOneLivePerQueue()
    {
      nodes as object != edges as object && nodes.Valid() && edges.Valid() && HandlesValid()
    }

    /** Mount: the `useState` initial values; no effect has run yet. */
    constructor (applyNodeChanges: (seq<NC>, seq<N>) -> seq<N>, applyEdgeChanges: (seq<EC>, seq<E>) -> seq<E>)
      ensures Valid() && fresh(nodes) && fresh(edges)
      ensures nodes.reduce == applyNodeChanges && edges.reduce == applyEdgeChanges
      ensures nodes.collection == [] && nodes.changes == [] && nodes.sinceFlush == [] && nodes.intake == [] && nodes.log == []
      ensures nodes.seed == [] && nodes.sinceSeed == []
      ensures edges.collection == [] && edges.changes == [] && edges.sinceFlush == [] && edges.intake == [] && edges.log == []
      ensures edges.seed == [] && edges.sinceSeed == []
      ensures nodeHandle == None && edgeHandle == None && pending == map[] && seen == None
    {
      nodes := new Stream(applyNodeChanges);
      edges := new Stream(applyEdgeChanges);
      nodeHandle, edgeHandle := None, None;
      pending, nextHandle := map[], 0;
      seen := None;
    }

    /** Re-seed effect for nodes. */
    method ReseedNodes(ns: seq<N>)
      requires Valid()
      modifies nodes
      ensures Valid()
      ensures nodes.collection == ns && nodes.changes == old(nodes.changes)
      ensures nodes.seed == ns && nodes.sinceSeed == []
      ensures nodes.sinceFlush == old(nodes.sinceFlush) && nodes.intake == old(nodes.intake) && nodes.log == old(nodes.log)
      ensures unchanged(this, edges)
    {
      nodes.Reseed(ns);
    }

    /** Re-seed effect for edges. */
    method ReseedEdges(es: seq<E>)
      requires Valid()
      modifies edges
      ensures Valid()
      ensures edges.collection == es && edges.changes == old(edges.changes)
      ensures edges.seed == es && edges.sinceSeed == []
      ensures edges.sinceFlush == old(edges.sinceFlush) && edges.intake == old(edges.intake) && edges.log == old(edges.log)
      ensures unchanged(this, nodes)
    {
      edges.Reseed(es);
    }

    /** Node intake callback `onNodesChange`. */
    method OnNodesChange(changes: seq<NC>)
      requires Valid()
      modifies nodes
      ensures Valid()
      ensures nodes.changes == old(nodes.changes) + changes
      ensures nodes.collection == nodes.reduce(changes, old(nodes.collection))
      ensures nodes.sinceSeed == old(nodes.sinceSeed) + [changes] && nodes.seed == old(nodes.seed)
      ensures nodes.sinceFlush == old(nodes.sinceFlush) + [changes]
      ensures nodes.intake == old(nodes.intake) + [changes] && nodes.log == old(nodes.log)
      ensures unchanged(this, edges)
    {
      nodes.Intake(changes);
    }

    /** Edge intake callback `onEdgesChange`. */
    method OnEdgesChange(changes: seq<EC>)
      requires Valid()
      modifies edges
      ensures Valid()
      ensures edges.changes == old(edges.changes) + changes
      ensures edges.collection == edges.reduce(changes, old(edges.collection))
      ensures edges.sinceSeed == old(edges.sinceSeed) + [changes] && edges.seed == old(edges.seed)
      ensures edges.sinceFlush == old(edges.sinceFlush) + [changes]
      ensures edges.intake == old(edges.intake) + [changes] && edges.log == old(edges.log)
      ensures unchanged(this, nodes)
    {
      edges.Intake(changes);
    }

    /** Cleanup of the node flush effect: its request is cancelled, so it will never
        drain the queue or call a sink; no stream is touched. */
    method CancelNodeFlush()
      requires Valid()
      modifies this`pending, this`nodeHandle
      ensures Valid()
      ensures pending == Cancelled(old(pending), old(nodeHandle))
      ensures nodeHandle == None
      ensures NodeRequests(pending) == map[]
      ensures EdgeRequests(pending) == EdgeRequests(old(pending))
    {
      pending := Cancelled(pending, nodeHandle);
      nodeHandle := None;
    }

    /** Cleanup of the edge flush effect. */
    method CancelEdgeFlush()
      requires Valid()
      modifies this`pending, this`edgeHandle
      ensures Valid()
      ensures pending == Cancelled(old(pending), old(edgeHandle))
      ensures edgeHandle == None
      ensures EdgeRequests(pending) == map[]
      ensures NodeRequests(pending) == NodeRequests(old(pending))
    {
      pending := Cancelled(pending, edgeHandle);
      edgeHandle := None;
    }

    /** (Re-)registration of the node flush effect: the previous request is cancelled
        first, then a request with a fresh handle is made that will flush the node
        queue to `sink`. */
    method RegisterNodeFlush(sink: SinkId, timeout: Option<int>)
      requires Valid()
      modifies this`pending, this`nodeHandle, this`nextHandle
      ensures Valid()
      ensures nodeHandle == Some(old(nextHandle)) && nextHandle == old(nextHandle) + 1
      ensures old(nextHandle) !in old(pending)
      ensures pending == Cancelled(old(pending), old(nodeHandle))[old(nextHandle) := FlushNodes(sink, timeout)]
      ensures NodeRequests(pending) == map[old(nextHandle) := FlushNodes(sink, timeout)]
      ensures EdgeRequests(pending) == EdgeRequests(old(pending))
    {
      CancelNodeFlush();
      var h := nextHandle;
      nextHandle := nextHandle + 1;
      pending := pending[h := FlushNodes(sink, timeout)];
      nodeHandle := Some(h);
    }

    /** (Re-)registration of the edge flush effect. */
    method RegisterEdgeFlush(sink: SinkId, timeout: Option<int>)
      requires Valid()
      modifies this`pending, this`edgeHandle, this`nextHandle
      ensures Valid()
      ensures edgeHandle == Some(old(nextHandle)) && nextHandle == old(nextHandle) + 1
      ensures old(nextHandle) !in old(pending)
      ensures pending == Cancelled(old(pending), old(edgeHandle))[old(nextHandle) := FlushEdges(sink, timeout)]
      ensures EdgeRequests(pending) == map[old(nextHandle) := FlushEdges(sink, timeout)]
      ensures NodeRequests(pending) == NodeRequests(old(pending))
    {
      CancelEdgeFlush();
      var h := nextHandle;
      nextHandle := nextHandle + 1;
      pending := pending[h := FlushEdges(sink, timeout)];
      edgeHandle := Some(h);
    }

    /** The host runs the idle request with handle `h`, if it is still outstanding:
        a node flush drains the node queue into the sink the request captured, an
        edge flush the edge queue; a cancelled or already-run handle does nothing.
        Running a request never schedules another one. */
    method Fire(h: Handle) returns (outcome: Firing<NC, EC>)
      requires Valid()
      modifies this`pending, nodes, edges
      ensures Valid()
      ensures pending == old(pending) - {h}
      ensures nodeHandle == old(nodeHandle) && edgeHandle == old(edgeHandle) && nextHandle == old(nextHandle)
      ensures h !in old(pending) ==>
        outcome == Skipped && unchanged(nodes, edges)
      ensures h in old(pending) && old(pending)[h].FlushNodes? ==>
        outcome == NodesFlushed(old(pending)[h].sink, old(nodes.changes)) &&
        outcome.nodeBatch == Flatten(old(nodes.sinceFlush)) &&
        nodes.changes == [] && nodes.sinceFlush == [] &&
        nodes.log == old(nodes.log) + [Delivery(old(pending)[h].sink, old(nodes.changes))] &&
        nodes.collection == old(nodes.collection) && nodes.intake == old(nodes.intake) &&
        nodes.seed == old(nodes.seed) && nodes.sinceSeed == old(nodes.sinceSeed) &&
        unchanged(edges)
      ensures h in old(pending) && old(pending)[h].FlushEdges? ==>
        outcome == EdgesFlushed(old(pending)[h].sink, old(edges.changes)) &&
        outcome.edgeBatch == Flatten(old(edges.sinceFlush)) &&
        edges.changes == [] && edges.sinceFlush == [] &&
        edges.log == old(edges.log) + [Delivery(old(pending)[h].sink, old(edges.changes))] &&
        edges.collection == old(edges.collection) && edges.intake == old(edges.intake) &&
        edges.seed == old(edges.seed) && edges.sinceSeed == old(edges.sinceSeed) &&
        unchanged(nodes)
    {
      if h !in pending {
        outcome := Skipped;
        return;
      }
      var callback := pending[h];
      pending := pending - {h};
      match callback
      case FlushNodes(sink, _) =>
        var batch := nodes.Drain(sink);
        outcome := NodesFlushed(sink, batch);
      case FlushEdges(sink, _) =>
        var batch := edges.Drain(sink);
        outcome := EdgesFlushed(sink, batch);
    }

    /** Unmount: both flush effects are cleaned up, so no request of this hook is
        left outstanding. */
    method Teardown()
      requires Valid()
      modifies this`pending, this`nodeHandle, this`edgeHandle
      ensures Valid()
      ensures pending == Cancelled(Cancelled(old(pending), old(nodeHandle)), old(edgeHandle))
      ensures pending == map[]
      ensures nodeHandle == None && edgeHandle == None
    {
      CancelNodeFlush();
      CancelEdgeFlush();
      assert forall k :: k in pending ==> k in NodeRequests(pending) || k in EdgeRequests(pending);
    }

    /** The two idle-flush effects after a render: each runs again, cleanup first,
        when its sink has a new identity (or on the first render); a change of
        `timeout` alone sets nothing up again. */
    method RunFlushEffects(p: Props<N, E>)
      requires Valid()
      modifies this`pending, this`nodeHandle, this`edgeHandle, this`nextHandle
      ensures Valid()
      ensures NodeSinkChanged(seen, p) ==>
        nodeHandle.Some? && nodeHandle.value !in old(pending) &&
        NodeRequests(pending) == map[nodeHandle.value := FlushNodes(p.onNodesChange, p.timeout)]
      ensures !NodeSinkChanged(seen, p) ==>
        nodeHandle == old(nodeHandle) && NodeRequests(pending) == NodeRequests(old(pending))
      ensures EdgeSinkChanged(seen, p) ==>
        edgeHandle.Some? && edgeHandle.value !in old(pending) &&
        EdgeRequests(pending) == map[edgeHandle.value := FlushEdges(p.onEdgesChange, p.timeout)]
      ensures !EdgeSinkChanged(seen, p) ==>
        edgeHandle == old(edgeHandle) && EdgeRequests(pending) == EdgeRequests(old(pending))
      ensures NodeSinkChanged(seen, p) ==> nodeHandle == Some(old(nextHandle))
      ensures EdgeSinkChanged(seen, p) ==>
        edgeHandle == Some(old(nextHandle) + if NodeSinkChanged(seen, p) then 1 else 0)
      ensures nextHandle == old(nextHandle) + (if NodeSinkChanged(seen, p) then 1 else 0)
                                            + (if EdgeSinkChanged(seen, p) then 1 else 0)
      ensures forall h :: h in pending && h !in old(pending) ==> old(nextHandle) <= h
    {
      if NodeSinkChanged(seen, p) {
        RegisterNodeFlush(p.onNodesChange, p.timeout);
      }
      if EdgeSinkChanged(seen, p) {
        RegisterEdgeFlush(p.onEdgesChange, p.timeout);
      }
    }

    /** The two re-seed effects after a render, in source order: each replaces its
        local collection when the props collection has a new identity (or on the
        first render). */
    method RunReseedEffects(p: Props<N, E>)
      requires Valid()
      modifies nodes, edges
      ensures Valid()
      ensures nodes.collection == if NodesChanged(seen, p) then p.nodes.value else old(nodes.collection)
      ensures if NodesChanged(seen, p) then nodes.seed == p.nodes.value && nodes.sinceSeed == []
              else nodes.seed == old(nodes.seed) && nodes.sinceSeed == old(nodes.sinceSeed)
      ensures edges.collection == if EdgesChanged(seen, p) then p.edges.value else old(edges.collection)
      ensures if EdgesChanged(seen, p) then edges.seed == p.edges.value && edges.sinceSeed == []
              else edges.seed == old(edges.seed) && edges.sinceSeed == old(edges.sinceSeed)
      ensures nodes.changes == old(nodes.changes) && edges.changes == old(edges.changes)
      ensures nodes.sinceFlush == old(nodes.sinceFlush) && edges.sinceFlush == old(edges.sinceFlush)
      ensures nodes.intake == old(nodes.intake) && edges.intake == old(edges.intake)
      ensures nodes.log == old(nodes.log) && edges.log == old(edges.log)
    {
      if EdgesChanged(seen, p) {
        ReseedEdges(p.edges.value);
      }
      if NodesChanged(seen, p) {
        ReseedNodes(p.nodes.value);
      }
    }

    /** A render with new props: it returns the collections as they stand, then
        runs the layout (flush) effects and the passive (re-seed) effects whose
        dependencies changed. No render touches a queue or calls a sink. */
    method Render(p: Props<N, E>) returns (view: View<N, E>)
      requires Valid()
      modifies this`pending, this`nodeHandle, this`edgeHandle, this`nextHandle, this`seen, nodes, edges
      ensures Valid()
      ensures view == View(old(nodes.collection), old(edges.collection))
      ensures seen == Some(DepsOf(p))
      ensures nodes.collection == if NodesChanged(old(seen), p) then p.nodes.value else old(nodes.collection)
      ensures if NodesChanged(old(seen), p) then nodes.seed == p.nodes.value && nodes.sinceSeed == []
              else nodes.seed == old(nodes.seed) && nodes.sinceSeed == old(nodes.sinceSeed)
      ensures edges.collection == if EdgesChanged(old(seen), p) then p.edges.value else old(edges.collection)
      ensures if EdgesChanged(old(seen), p) then edges.seed == p.edges.value && edges.sinceSeed == []
              else edges.seed == old(edges.seed) && edges.sinceSeed == old(edges.sinceSeed)
      ensures nodes.changes == old(nodes.changes) && edges.changes == old(edges.changes)
      ensures nodes.sinceFlush == old(nodes.sinceFlush) && edges.sinceFlush == old(edges.sinceFlush)
      ensures nodes.intake == old(nodes.intake) && edges.intake == old(edges.intake)
      ensures nodes.log == old(nodes.log) && edges.log == old(edges.log)
      ensures NodeSinkChanged(old(seen), p) ==>
        nodeHandle.Some? && nodeHandle.value !in old(pending) &&
        NodeRequests(pending) == map[nodeHandle.value := FlushNodes(p.onNodesChange, p.timeout)]
      ensures !NodeSinkChanged(old(seen), p) ==>
        nodeHandle == old(nodeHandle) && NodeRequests(pending) == NodeRequests(old(pending))
      ensures EdgeSinkChanged(old(seen), p) ==>
        edgeHandle.Some? && edgeHandle.value !in old(pending) &&
        EdgeRequests(pending) == map[edgeHandle.value := FlushEdges(p.onEdgesChange, p.timeout)]
      ensures !EdgeSinkChanged(old(seen), p) ==>
        edgeHandle == old(edgeHandle) && EdgeRequests(pending) == EdgeRequests(old(pending))
      ensures NodeSinkChanged(old(seen), p) ==> nodeHandle == Some(old(nextHandle))
      ensures EdgeSinkChanged(old(seen), p) ==>
        edgeHandle == Some(old(nextHandle) + if NodeSinkChanged(old(seen), p) then 1 else 0)
      ensures nextHandle == old(nextHandle) + (if NodeSinkChanged(old(seen), p) then 1 else 0)
                                            + (if EdgeSinkChanged(old(seen), p) then 1 else 0)
      ensures forall h :: h in pending && h !in old(pending) ==> old(nextHandle) <= h
    {
      view := View(nodes.collection, edges.collection);
      RunFlushEffects(p);
      RunReseedEffects(p);
      seen := Some(DepsOf(p));
    }
  }
}
