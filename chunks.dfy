/**
  The byte-array helpers shared by client and server (`flattenToBytes` in
  file-sync-shared, repeated verbatim at the end of Synchronization.kt).
 */
module Chunks {

  /** A Kotlin `Byte`: a signed 8-bit value. */
  newtype Byte = b: int | -128 <= b < 128

  /** The bytes of all chunks, in chunk order. */
  function Flatten(chunks: seq<seq<Byte>>): seq<Byte>
  {
    if chunks == [] then [] else chunks[0] + Flatten(chunks[1..])
  }

  /** The sum of the chunk lengths. */
  function TotalLength(chunks: seq<seq<Byte>>): nat
  {
    if chunks == [] then 0 else |chunks[0]| + TotalLength(chunks[1..])
  }

  lemma {:induction false} FlattenLength(chunks: seq<seq<Byte>>)
    ensures |Flatten(chunks)| == TotalLength(chunks)
  {
    if chunks != [] {
      FlattenLength(chunks[1..]);
    }
  }

  lemma FlattenEmpty()
    ensures Flatten([]) == []
  {
  }

  lemma FlattenSingleton(chunk: seq<Byte>)
    ensures Flatten([chunk]) == chunk
  {
    assert [chunk][1..] == [];
  }

  /** Concatenation of chunk lists is concatenation of their bytes: order is preserved. */
  lemma {:induction false} FlattenAppend(a: seq<seq<Byte>>, b: seq<seq<Byte>>)
    ensures Flatten(a + b) == Flatten(a) + Flatten(b)
  {
    if a == [] {
      assert a + b == b;
    } else {
      assert (a + b)[0] == a[0];
      assert (a + b)[1..] == a[1..] + b;
      FlattenAppend(a[1..], b);
    }
  }

  /** `flattenToBytes`: every chunk is written, in order, into one output stream. */
  method FlattenToBytes(chunks: seq<seq<Byte>>) returns (output: seq<Byte>)
    ensures output == Flatten(chunks)
  {
    output := [];
    for i := 0 to |chunks|
      invariant output == Flatten(chunks[..i])
    {
      assert chunks[..i + 1] == chunks[..i] + [chunks[i]];
      FlattenAppend(chunks[..i], [chunks[i]]);
      FlattenSingleton(chunks[i]);
      output := output + chunks[i];
    }
    assert chunks[..|chunks|] == chunks;
  }
}
