/** Concatenation of a sequence of sequences (JavaScript's `Array.prototype.flat()` at depth 1). */
module Seqs {

  /** The elements of `xss[0]`, then those of `xss[1]`, and so on. */
  function Flatten<T>(xss: seq<seq<T>>): seq<T>
  {
    if xss == [] then [] else xss[0] + Flatten(xss[1..])
  }

  /** The sum of the lengths of the inner sequences. */
  function TotalLength<T>(xss: seq<seq<T>>): nat
  {
    if xss == [] then 0 else |xss[0]| + TotalLength(xss[1..])
  }

  /** Flattening keeps every element: its length is the sum of the inner lengths. */
  lemma {:induction false} FlattenLength<T>(xss: seq<seq<T>>)
    ensures |Flatten(xss)| == TotalLength(xss)
  {
    if xss != [] {
      FlattenLength(xss[1..]);
    }
  }

  /** Flattening keeps the order: element `j` of inner sequence `i` sits after all
      elements of the inner sequences before `i`. */
  lemma {:induction false} FlattenIndex<T>(xss: seq<seq<T>>, i: nat, j: nat)
    requires i < |xss| && j < |xss[i]|
    ensures TotalLength(xss[..i]) + j < |Flatten(xss)|
    ensures Flatten(xss)[TotalLength(xss[..i]) + j] == xss[i][j]
  {
    FlattenLength(xss);
    if i == 0 {
      assert xss[..0] == [];
    } else {
      var tail := xss[1..];
      FlattenIndex(tail, i - 1, j);
      assert xss[..i][0] == xss[0];
      assert xss[..i][1..] == tail[..i - 1];
      assert TotalLength(xss[..i]) == |xss[0]| + TotalLength(tail[..i - 1]);
    }
  }

  /** An element of the flattened sequence is an element of one of the inner sequences,
      and conversely. */
  lemma {:induction false} FlattenMember<T>(xss: seq<seq<T>>, x: T)
    ensures x in Flatten(xss) <==> exists i :: 0 <= i < |xss| && x in xss[i]
  {
    if xss != [] {
      FlattenMember(xss[1..], x);
      if x in Flatten(xss[1..]) {
        var i :| 0 <= i < |xss[1..]| && x in xss[1..][i];
        assert x in xss[i + 1];
      }
      if exists i :: 0 <= i < |xss| && x in xss[i] {
        var i :| 0 <= i < |xss| && x in xss[i];
        if i > 0 {
          assert x in xss[1..][i - 1];
        }
      }
    }
  }
}
