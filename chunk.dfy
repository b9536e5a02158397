/**
 * One piece of a file being uploaded: its bytes, its number in the file, and
 * the hex string of the digest given when it was made.
 */
module Chunks {
  import opened Common
  import opened Hex

  /** All three fields are fixed once the chunk is built; its size is its content length. */
  datatype KDriveChunk = KDriveChunk(chunkHash: string, chunkNumber: int, content: seq<byte>)
  {
    function ChunkSize(): nat { |content| }
  }

  /** The chunk constructor: the hash string is the base16 text of the `hash` argument. */
  function NewChunk(content: seq<byte>, chunkNumber: int, hash: seq<byte>): KDriveChunk
  {
    KDriveChunk(ToHexString(hash), chunkNumber, content)
  }

  /**
   * A chunk's size is its content length, and its hash string is upper-case
   * hex, two digits per byte of the `hash` argument, which decodes back to
   * exactly that argument, whatever bytes it holds.
   */
  lemma NewChunkProperties(content: seq<byte>, chunkNumber: int, hash: seq<byte>)
    ensures var c := NewChunk(content, chunkNumber, hash);
      && c.content == content && c.chunkNumber == chunkNumber && c.ChunkSize() == |content|
      && |c.chunkHash| == 2 * |hash| && IsUpperHex(c.chunkHash)
      && FromHexString(c.chunkHash) == Some(hash)
  {
    ToHexStringShape(hash);
    HexRoundTrip(hash);
  }

  /** Two chunks carry the same hash string exactly when they were given the same hash bytes. */
  lemma ChunkHashInjective(c1: seq<byte>, n1: int, h1: seq<byte>, c2: seq<byte>, n2: int, h2: seq<byte>)
    ensures NewChunk(c1, n1, h1).chunkHash == NewChunk(c2, n2, h2).chunkHash <==> h1 == h2
  {
    ToHexStringInjective(h1, h2);
  }

  /** The sum of the chunk sizes. */
  function SumSizes(cs: seq<KDriveChunk>): nat
  {
    if cs == [] then 0 else cs[0].ChunkSize() + SumSizes(cs[1..])
  }

  /** The chunk contents, one after the other. */
  function Contents(cs: seq<KDriveChunk>): (bytes: seq<byte>)
    ensures |bytes| == SumSizes(cs)
  {
    if cs == [] then [] else cs[0].content + Contents(cs[1..])
  }

  lemma {:induction false} SumSizesAppend(a: seq<KDriveChunk>, b: seq<KDriveChunk>)
    ensures SumSizes(a + b) == SumSizes(a) + SumSizes(b)
  {
    if a != [] {
      SumSizesAppend(a[1..], b);
      assert (a + b)[1..] == a[1..] + b;
    } else {
      assert a + b == b;
    }
  }
}
