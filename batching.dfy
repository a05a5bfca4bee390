/** Pure update expressions of the optimistic hook: the left fold of change
    batches through a reducer (what repeated `setNodes(nodes => reduce(changes, nodes))`
    computes) and the concatenation of batches (what repeated
    `setNodeChanges(old => old.concat(changes))` computes). */
module Batching {

  /** Applying the batches one after another, first batch first, starting from `seed`. */
  function Fold<C, T>(reduce: (seq<C>, T) -> T, batches: seq<seq<C>>, seed: T): T
    decreases |batches|
  {
    if batches == [] then seed else Fold(reduce, batches[1..], reduce(batches[0], seed))
  }

  /** All records of the batches, in arrival order. */
  function Flatten<C>(batches: seq<seq<C>>): seq<C>
    decreases |batches|
  {
    if batches == [] then [] else batches[0] + Flatten(batches[1..])
  }

  /** One more batch at the end is one more reducer call on the folded value. */
  lemma {:induction false} FoldSnoc<C, T>(reduce: (seq<C>, T) -> T, batches: seq<seq<C>>, b: seq<C>, seed: T)
    ensures Fold(reduce, batches + [b], seed) == reduce(b, Fold(reduce, batches, seed))
    decreases |batches|
  {
    if batches == [] {
      assert [] + [b] == [b];
      assert [b][1..] == [];
    } else {
      assert (batches + [b])[0] == batches[0];
      assert (batches + [b])[1..] == batches[1..] + [b];
      FoldSnoc(reduce, batches[1..], b, reduce(batches[0], seed));
    }
  }

  /** Appending a batch appends its records after all earlier ones. */
  lemma {:induction false} FlattenSnoc<C>(batches: seq<seq<C>>, b: seq<C>)
    ensures Flatten(batches + [b]) == Flatten(batches) + b
    decreases |batches|
  {
    if batches == [] {
      assert [] + [b] == [b];
      assert [b][1..] == [];
    } else {
      assert (batches + [b])[0] == batches[0];
      assert (batches + [b])[1..] == batches[1..] + [b];
      FlattenSnoc(batches[1..], b);
    }
  }

  /** For a reducer that applies every record of a batch in order (the empty
      batch changes nothing, and reducing two batches in turn is reducing their
      concatenation), folding the batches into the seed is applying all
      their records, joined in order, to the seed at once. */
  lemma {:induction false} FoldIsBulkApply<C, T>(reduce: (seq<C>, T) -> T, batches: seq<seq<C>>, seed: T)
    requires forall x: T :: reduce([], x) == x
    requires forall a: seq<C>, b: seq<C>, x: T {:trigger reduce(b, reduce(a, x))} :: reduce(a + b, x) == reduce(b, reduce(a, x))
    ensures Fold(reduce, batches, seed) == reduce(Flatten(batches), seed)
    decreases |batches|
  {
    if batches != [] {
      FoldIsBulkApply(reduce, batches[1..], reduce(batches[0], seed));
      assert reduce(batches[0] + Flatten(batches[1..]), seed)
          == reduce(Flatten(batches[1..]), reduce(batches[0], seed));
    }
  }
}
