// The key-value store the operators read their input from and persist their output to.
// In the repository it is the operator base class's file I/O (`_skip`, `_get_data`,
// `_put_data`); here it is a map from endpoint names to values.

module Wrappers {
  datatype Option<T> = None | Some(value: T)
}

module ArtifactStore {
  import opened Ratings
  import opened CooccurrenceSpec

  /** What an endpoint can hold: a ratings table or a persisted co-occurrence index. */
  datatype Value = Table(rows: seq<Rating>) | Cooccurrences(index: Index)

  class Store {
    var contents: map<string, Value>

    constructor(initial: map<string, Value>)
      ensures contents == initial
    {
      contents := initial;
    }

    /** `_put_data`: writes `v` under `endpoint`, replacing what was there. */
    method Put(endpoint: string, v: Value)
      modifies this
      ensures contents == old(contents)[endpoint := v]
    {
      contents := contents[endpoint := v];
    }
  }
}
