/** A stream that comes in chunks. */
module Chunks {

  function Concat<T>(chunks: seq<seq<T>>): seq<T> {
    if chunks == [] then [] else Concat(chunks[..|chunks| - 1]) + chunks[|chunks| - 1]
  }

  lemma ConcatStep<T>(chunks: seq<seq<T>>, i: nat)
    requires i < |chunks|
    ensures Concat(chunks[..i + 1]) == Concat(chunks[..i]) + chunks[i]
    ensures chunks[..|chunks|] == chunks
  {
    assert chunks[..i + 1][..i] == chunks[..i];
  }

  lemma ConcatAll<T>(chunks: seq<seq<T>>)
    ensures chunks[..|chunks|] == chunks && chunks[..0] == [] && Concat(chunks[..0]) == []
  {
  }
}
