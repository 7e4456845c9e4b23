/** Shared helpers. */
module Basics {
  datatype Option<+T> = None | Some(value: T)

  lemma Reassociate<T>(a: seq<T>, b: seq<T>, c: seq<T>)
    ensures (a + b) + c == a + (b + c)
  {
  }

  function Min(a: nat, b: nat): nat {
    if a < b then a else b
  }

  /** The elements of the parts, in order. */
  function Flat<T>(blocks: seq<seq<T>>): seq<T> {
    if blocks == [] then [] else blocks[0] + Flat(blocks[1..])
  }

  lemma {:induction false} FlatAppend<T>(blocks: seq<seq<T>>, b: seq<T>)
    ensures Flat(blocks + [b]) == Flat(blocks) + b
  {
    if blocks == [] {
      assert blocks + [b] == [b] && [b][1..] == [] && b + [] == b;
    } else {
      assert (blocks + [b])[1..] == blocks[1..] + [b];
      FlatAppend(blocks[1..], b);
      Reassociate(blocks[0], Flat(blocks[1..]), b);
    }
  }
}
