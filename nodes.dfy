/**
 * The values the decoder produces: Python's None, bool, int, float and str
 * leaves, lists, and dicts kept in insertion order.
 */
module Nodes {

  datatype Node =
    | Null
    | Bool(b: bool)
    | Int(value: nat)
    /** A float token; the model keeps its text instead of a double. */
    | Float(text: string)
    | Str(s: string)
    | List(items: seq<Node>)
    /** A dict: keys in insertion order, each at most once. */
    | Map(entries: seq<(string, Node)>)
  {
    predicate IsScalar() {
      !List? && !Map?
    }
  }

  datatype Option<T> = None | Some(value: T)

  /** An outcome that either carries a value or says why there is none. */
  datatype Result<T, E> = Success(value: T) | Failure(error: E)

  /** The keys of a dict, in insertion order. */
  function Keys<V>(entries: seq<(string, V)>): (ks: seq<string>)
    ensures |ks| == |entries|
    ensures forall i :: 0 <= i < |entries| ==> ks[i] == entries[i].0
  {
    if entries == [] then [] else [entries[0].0] + Keys(entries[1..])
  }
}
