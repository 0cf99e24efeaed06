/** What consecutive pieces amount to. */
module Chunks {

  function Concat<T>(chunks: seq<seq<T>>): seq<T> {
    if chunks == [] then [] else Concat(chunks[..|chunks| - 1]) + chunks[|chunks| - 1]
  }

  lemma ConcatSnoc<T>(chunks: seq<seq<T>>, i: nat)
    requires i < |chunks|
    ensures Concat(chunks[..i + 1]) == Concat(chunks[..i]) + chunks[i]
  {
    assert chunks[..i + 1][..i] == chunks[..i];
  }

  lemma {:induction false} ConcatSplit<T>(chunks: seq<seq<T>>, i: nat)
    requires i <= |chunks|
    ensures Concat(chunks) == Concat(chunks[..i]) + Concat(chunks[i..])
  {
    if i == |chunks| {
      assert chunks[..i] == chunks;
    } else {
      var n := |chunks| - 1;
      assert chunks[..n][..i] == chunks[..i] && chunks[i..][..n - i] == chunks[..n][i..];
      ConcatSplit(chunks[..n], i);
    }
  }

  lemma ConcatHead<T>(chunks: seq<seq<T>>)
    requires chunks != []
    ensures Concat(chunks) == chunks[0] + Concat(chunks[1..])
  {
    ConcatSplit(chunks, 1);
    assert chunks[..1][..0] == [];
  }

  lemma ConcatNothing<T>()
    ensures Concat<T>([]) == []
  {}
}
