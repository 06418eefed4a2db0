/**
 * The label storage shared by `Tags` and `Taggable`: a Go `map[string]struct{}`
 * used as a set, and the `keys` helper that copies its key set into a slice.
 */
module Maps {

  /**
   * A `map[string]struct{}` field. `Nil` is the zero value of the field (a nil
   * map, which reads as empty but cannot be written to); `Made` is a map made
   * by `make`, holding its keys.
   */
  datatype PresenceMap = Nil | Made(keys: set<string>)
  {
    /** What a lookup or `len` sees: a nil map reads as the empty map. */
    function Elements(): set<string>
    {
      if Nil? then {} else keys
    }
  }

  /** No label occurs twice in `s`. */
  predicate NoDuplicates(s: seq<string>)
  {
    forall i, j :: 0 <= i < j < |s| ==> s[i] != s[j]
  }

  /** `order` lists every element of `labels` exactly once, in some order. */
  predicate Enumerates(order: seq<string>, labels: set<string>)
  {
    && (forall i :: 0 <= i < |order| ==> order[i] in labels)
    && (forall l :: l in labels ==> l in order)
    && NoDuplicates(order)
  }

  /**
   * `keys`: a slice as long as the map, filled in map iteration order with an
   * index counter. Go's iteration order is unspecified, so each step picks any
   * key not yet visited.
   */
  method Keys(input: set<string>) returns (keys: seq<string>)
    ensures |keys| == |input|
    ensures forall i :: 0 <= i < |keys| ==> keys[i] in input
    ensures forall k :: k in input ==> k in keys
    ensures NoDuplicates(keys)
  {
    var slots := new string[|input|];
    var i := 0;
    var unvisited := input;
    while unvisited != {}
      invariant unvisited <= input
      invariant i + |unvisited| == |input|
      invariant forall j :: 0 <= j < i ==> slots[j] in input - unvisited
      invariant forall k :: k in input - unvisited ==> k in slots[..i]
      invariant NoDuplicates(slots[..i])
      decreases |unvisited|
    {
      var k :| k in unvisited;
      ghost var visited := slots[..i];
      slots[i] := k;
      assert slots[..i + 1] == visited + [k];
      i := i + 1;
      unvisited := unvisited - {k};
    }
    assert slots[..] == slots[..i];
    keys := slots[..];
  }

  /** An enumeration of a set is exactly as long as the set is large. */
  lemma {:induction false} EnumerationLength(order: seq<string>, labels: set<string>)
    requires Enumerates(order, labels)
    ensures |order| == |labels|
  {
    if order != [] {
      var rest := order[1..];
      assert Enumerates(rest, labels - {order[0]}) by {
        forall l | l in labels - {order[0]} ensures l in rest {
          var j :| 0 <= j < |order| && order[j] == l;
        }
      }
      EnumerationLength(rest, labels - {order[0]});
    }
  }

  /** The only enumeration of a one-label set is that label. */
  lemma {:induction false} EnumerationSingleton(order: seq<string>, a: string)
    requires Enumerates(order, {a})
    ensures order == [a]
  {
    EnumerationLength(order, {a});
  }

  /** A two-label set has exactly two enumerations. */
  lemma {:induction false} EnumerationPair(order: seq<string>, a: string, b: string)
    requires a != b && Enumerates(order, {a, b})
    ensures order == [a, b] || order == [b, a]
  {
    EnumerationLength(order, {a, b});
  }
}
