/** Event orders a caller of the hook goes through, each proved from the
    contracts of `Optimism.Hook` alone. The reducers, collections, change
    records and sink identities are arbitrary. */
module Scenarios {
  import opened Batching
  import opened Optimism

  /** Mount and first render with the given collections, sinks and timeout. */
  method Mount<N, E, NC, EC>(
    applyNodeChanges: (seq<NC>, seq<N>) -> seq<N>, applyEdgeChanges: (seq<EC>, seq<E>) -> seq<E>,
    p: Props<N, E>)
    returns (hook: Hook<N, E, NC, EC>, first: View<N, E>)
    ensures fresh(hook) && fresh(hook.nodes) && fresh(hook.edges) && hook.Valid()
    ensures hook.nodes.reduce == applyNodeChanges && hook.edges.reduce == applyEdgeChanges
    ensures hook.seen == Some(DepsOf(p))
    ensures hook.nodes.collection == p.nodes.value && hook.edges.collection == p.edges.value
    ensures hook.nodes.changes == [] && hook.edges.changes == []
    ensures hook.nodes.sinceFlush == [] && hook.edges.sinceFlush == []
    ensures hook.nodes.intake == [] && hook.edges.intake == []
    ensures hook.nodes.log == [] && hook.edges.log == []
    ensures hook.nodes.seed == p.nodes.value && hook.nodes.sinceSeed == []
    ensures hook.edges.seed == p.edges.value && hook.edges.sinceSeed == []
    ensures hook.nodeHandle.Some? && hook.nodeHandle.value in hook.pending
    ensures hook.pending[hook.nodeHandle.value] == FlushNodes(p.onNodesChange, p.timeout)
    ensures hook.edgeHandle.Some? && hook.edgeHandle.value in hook.pending
    ensures hook.pending[hook.edgeHandle.value] == FlushEdges(p.onEdgesChange, p.timeout)
    ensures first == View([], [])
  {
    hook := new Hook(applyNodeChanges, applyEdgeChanges);
    first := hook.Render(p);
    assert hook.nodeHandle.value in NodeRequests(hook.pending);
    assert hook.edgeHandle.value in EdgeRequests(hook.pending);
  }

  /** Two node batches taken in before any flush are both applied, in order, and
      the next node flush hands the sink exactly their records in arrival order,
      leaving the queue empty. */
  method RemoveThenAdd<N, E, NC, EC>(
    applyNodeChanges: (seq<NC>, seq<N>) -> seq<N>, applyEdgeChanges: (seq<EC>, seq<E>) -> seq<E>,
    p: Props<N, E>, remove: NC, add: NC)
    returns (local: seq<N>, outcome: Firing<NC, EC>, after: seq<NC>)
    ensures local == applyNodeChanges([add], applyNodeChanges([remove], p.nodes.value))
    ensures outcome == NodesFlushed(p.onNodesChange, [remove, add])
    ensures after == []
  {
    var hook, _ := Mount(applyNodeChanges, applyEdgeChanges, p);
    hook.OnNodesChange([remove]);
    hook.OnNodesChange([add]);
    local := hook.nodes.collection;
    outcome := hook.Fire(hook.nodeHandle.value);
    after := hook.nodes.changes;
  }

  /** With no intake at all, the flush still calls the sink, with the empty batch. */
  method EmptyFlush<N, E, NC, EC>(
    applyNodeChanges: (seq<NC>, seq<N>) -> seq<N>, applyEdgeChanges: (seq<EC>, seq<E>) -> seq<E>,
    p: Props<N, E>)
    returns (nodeOutcome: Firing<NC, EC>, edgeOutcome: Firing<NC, EC>)
    ensures nodeOutcome == NodesFlushed(p.onNodesChange, [])
    ensures edgeOutcome == EdgesFlushed(p.onEdgesChange, [])
  {
    var hook, _ := Mount(applyNodeChanges, applyEdgeChanges, p);
    nodeOutcome := hook.Fire(hook.nodeHandle.value);
    edgeOutcome := hook.Fire(hook.edgeHandle.value);
  }

  /** A new node sink identity re-registers the node flush: the old request, when
      the host would run it, does nothing, and the records it would have drained
      are delivered by the new request to the new sink. The edge request is kept. */
  method SinkChangeCancels<N, E, NC, EC>(
    applyNodeChanges: (seq<NC>, seq<N>) -> seq<N>, applyEdgeChanges: (seq<EC>, seq<E>) -> seq<E>,
    p: Props<N, E>, newSink: SinkId, batch: seq<NC>)
    returns (stale: Firing<NC, EC>, current: Firing<NC, EC>, edgeKept: bool)
    requires newSink != p.onNodesChange
    ensures stale == Skipped
    ensures current == NodesFlushed(newSink, batch)
    ensures edgeKept
  {
    var hook, _ := Mount(applyNodeChanges, applyEdgeChanges, p);
    var oldHandle := hook.nodeHandle.value;
    var oldEdgeHandle := hook.edgeHandle;
    hook.OnNodesChange(batch);
    assert oldEdgeHandle.value in EdgeRequests(hook.pending);
    var _ := hook.Render(p.(onNodesChange := newSink));
    assert oldEdgeHandle.value in EdgeRequests(hook.pending);
    edgeKept := hook.edgeHandle == oldEdgeHandle && hook.pending[oldEdgeHandle.value] == FlushEdges(p.onEdgesChange, p.timeout);
    assert hook.nodeHandle.value in NodeRequests(hook.pending);
    assert oldHandle !in NodeRequests(hook.pending);
    stale := hook.Fire(oldHandle);
    current := hook.Fire(hook.nodeHandle.value);
  }

  /** Handles are never reused: a request cancelled by one sink change is still
      dead after a second sink change, which makes a new request of its own. */
  method CancelledHandleStaysDead<N, E, NC, EC>(
    applyNodeChanges: (seq<NC>, seq<N>) -> seq<N>, applyEdgeChanges: (seq<EC>, seq<E>) -> seq<E>,
    p: Props<N, E>, s1: SinkId, s2: SinkId)
    returns (stale: Firing<NC, EC>)
    requires s1 != p.onNodesChange && s2 != s1
    ensures stale == Skipped
  {
    var hook, _ := Mount(applyNodeChanges, applyEdgeChanges, p);
    var h0 := hook.nodeHandle.value;
    var _ := hook.Render(p.(onNodesChange := s1));
    assert h0 !in NodeRequests(hook.pending);
    var _ := hook.Render(p.(onNodesChange := s2));
    stale := hook.Fire(h0);
  }

  /** A request that has run is gone for good: a later sink change makes a new
      request under a new handle, and the old handle still does nothing. */
  method RunHandleStaysDead<N, E, NC, EC>(
    applyNodeChanges: (seq<NC>, seq<N>) -> seq<N>, applyEdgeChanges: (seq<EC>, seq<E>) -> seq<E>,
    p: Props<N, E>, s1: SinkId)
    returns (first: Firing<NC, EC>, again: Firing<NC, EC>)
    requires s1 != p.onNodesChange
    ensures first == NodesFlushed(p.onNodesChange, [])
    ensures again == Skipped
  {
    var hook, _ := Mount(applyNodeChanges, applyEdgeChanges, p);
    var h0 := hook.nodeHandle.value;
    first := hook.Fire(h0);
    var _ := hook.Render(p.(onNodesChange := s1));
    again := hook.Fire(h0);
  }

  /** For a reducer that applies every record of a batch in order, the batch a
      flush delivers, applied at once to the seed, is the local collection, as
      long as no re-seed and no earlier flush came between. */
  method FlushReplaysLocalState<N, E, NC, EC>(
    applyNodeChanges: (seq<NC>, seq<N>) -> seq<N>, applyEdgeChanges: (seq<EC>, seq<E>) -> seq<E>,
    p: Props<N, E>, first: seq<NC>, second: seq<NC>)
    returns (local: seq<N>, outcome: Firing<NC, EC>)
    requires forall x: seq<N> :: applyNodeChanges([], x) == x
    requires forall a: seq<NC>, b: seq<NC>, x: seq<N> {:trigger applyNodeChanges(b, applyNodeChanges(a, x))} ::
      applyNodeChanges(a + b, x) == applyNodeChanges(b, applyNodeChanges(a, x))
    ensures outcome == NodesFlushed(p.onNodesChange, first + second)
    ensures local == applyNodeChanges(outcome.nodeBatch, p.nodes.value)
  {
    FoldIsBulkApply(applyNodeChanges, [first, second], p.nodes.value);
    var hook, _ := Mount(applyNodeChanges, applyEdgeChanges, p);
    hook.OnNodesChange(first);
    hook.OnNodesChange(second);
    local := hook.nodes.collection;
    assert hook.nodes.sinceSeed == hook.nodes.sinceFlush == [first, second];
    outcome := hook.Fire(hook.nodeHandle.value);
  }

  /** A render that changes only `timeout` keeps both outstanding requests, which
      still carry the timeout they were made with. */
  method TimeoutOnlyKeepsRequests<N, E, NC, EC>(
    applyNodeChanges: (seq<NC>, seq<N>) -> seq<N>, applyEdgeChanges: (seq<EC>, seq<E>) -> seq<E>,
    p: Props<N, E>, timeout: Option<int>)
    returns (nodeRequest: IdleCallback, edgeRequest: IdleCallback)
    ensures nodeRequest == FlushNodes(p.onNodesChange, p.timeout)
    ensures edgeRequest == FlushEdges(p.onEdgesChange, p.timeout)
  {
    var hook, _ := Mount(applyNodeChanges, applyEdgeChanges, p);
    var h, g := hook.nodeHandle.value, hook.edgeHandle.value;
    assert h in NodeRequests(hook.pending) && g in EdgeRequests(hook.pending);
    var _ := hook.Render(p.(timeout := timeout));
    assert h in NodeRequests(hook.pending) && g in EdgeRequests(hook.pending);
    nodeRequest, edgeRequest := hook.pending[h], hook.pending[g];
  }

  /** A new node collection identity replaces the local nodes wholesale, dropping
      the optimistic change, while the change stays queued and is still delivered. */
  method ReseedOverwrites<N, E, NC, EC>(
    applyNodeChanges: (seq<NC>, seq<N>) -> seq<N>, applyEdgeChanges: (seq<EC>, seq<E>) -> seq<E>,
    p: Props<N, E>, batch: seq<NC>, replacement: Ref<seq<N>>)
    returns (optimistic: seq<N>, seeded: seq<N>, outcome: Firing<NC, EC>)
    requires replacement.id != p.nodes.id
    ensures optimistic == applyNodeChanges(batch, p.nodes.value)
    ensures seeded == replacement.value
    ensures outcome == NodesFlushed(p.onNodesChange, batch)
  {
    var hook, _ := Mount(applyNodeChanges, applyEdgeChanges, p);
    hook.OnNodesChange(batch);
    optimistic := hook.nodes.collection;
    var _ := hook.Render(p.(nodes := replacement));
    seeded := hook.nodes.collection;
    assert hook.nodeHandle.value in NodeRequests(hook.pending);
    outcome := hook.Fire(hook.nodeHandle.value);
  }

  /** After unmount, neither request runs, and the queued records stay queued. */
  method TeardownCancelsBoth<N, E, NC, EC>(
    applyNodeChanges: (seq<NC>, seq<N>) -> seq<N>, applyEdgeChanges: (seq<EC>, seq<E>) -> seq<E>,
    p: Props<N, E>, nodeBatch: seq<NC>, edgeBatch: seq<EC>)
    returns (nodeOutcome: Firing<NC, EC>, edgeOutcome: Firing<NC, EC>, nodesQueued: seq<NC>, edgesQueued: seq<EC>)
    ensures nodeOutcome == Skipped && edgeOutcome == Skipped
    ensures nodesQueued == nodeBatch && edgesQueued == edgeBatch
  {
    var hook, _ := Mount(applyNodeChanges, applyEdgeChanges, p);
    var h, g := hook.nodeHandle.value, hook.edgeHandle.value;
    hook.OnNodesChange(nodeBatch);
    hook.OnEdgesChange(edgeBatch);
    hook.Teardown();
    nodeOutcome := hook.Fire(h);
    edgeOutcome := hook.Fire(g);
    nodesQueued, edgesQueued := hook.nodes.changes, hook.edges.changes;
  }
}
