/**
 * A file to upload: its metadata, the stream holding its content, and the
 * chunks it is split into before the upload.
 */
module Files {
  import opened Common
  import opened Hex
  import opened Text
  import opened Models
  import opened Chunks

  /** An in-memory stream: fixed content and a read position that may lie past the end. */
  class Stream {
    const data: seq<byte>
    var position: nat

    constructor (data: seq<byte>)
      ensures this.data == data && position == 0
    {
      this.data := data;
      position := 0;
    }

    /** How many bytes are left from the current position. */
    function Remaining(): nat
      reads this
    {
      if position < |data| then |data| - position else 0
    }

    /**
     * Copies up to `count` bytes from the position into `buffer` at `offset`,
     * advances the position by as many, and gives that number (0 at the end).
     */
    method Read(buffer: array<byte>, offset: nat, count: nat) returns (n: nat)
      requires offset + count <= buffer.Length
      modifies this`position, buffer
      ensures n == Min(count, old(Remaining()))
      ensures position == old(position) + n
      ensures n > 0 ==> old(position) + n <= |data|
      ensures old(position) <= |data| ==> buffer[offset..offset + n] == data[old(position)..old(position) + n]
      ensures buffer[..offset] == old(buffer[..offset])
      ensures buffer[offset + n..] == old(buffer[offset + n..])
    {
      n := Min(count, Remaining());
      var from := Min(position, |data|);
      var k := 0;
      while k < n
        invariant 0 <= k <= n
        invariant position == old(position)
        invariant from + n <= |data|
        invariant forall j | offset <= j < offset + k :: buffer[j] == data[from + j - offset]
        invariant buffer[..offset] == old(buffer[..offset])
        invariant buffer[offset + k..] == old(buffer[offset + k..])
      {
        buffer[offset + k] := data[from + k];
        k := k + 1;
      }
      ghost var copied, wanted := buffer[offset..offset + n], data[from..from + n];
      assert forall j | 0 <= j < n :: copied[j] == wanted[j];
      assert copied == wanted;
      position := position + n;
    }
  }

  /** The state of a file that the request builders and the upload read. */
  datatype FileView = FileView(
    name: string,
    directoryId: Option<string>,
    directoryPath: Option<string>,
    symbolicLink: Option<string>,
    createdAt: int,
    lastModifiedAt: int,
    chunks: seq<KDriveChunk>,
    content: Option<seq<byte>>,
    position: nat)
  {
    /** The sum of the chunk sizes (not the content length). */
    function TotalSize(): nat { SumSizes(chunks) }

    /** The bytes a read from the stream's position gives: all of them at position 0. */
    function Remaining(): seq<byte>
      requires content.Some?
    {
      content.value[Min(position, |content.value|)..]
    }

    /** The total hash as the file gives it now: the digest of the stream from its position on. */
    function StreamHash(sha256: seq<byte> -> seq<byte>): (h: string)
      requires content.Some?
      ensures h == ContentHash(sha256, Remaining())
    {
      StreamDigest(sha256, content.value, position).0
    }

    /** The file once its total hash has been read: the stream is at its end, or past it. */
    function AfterDigest(): FileView
    {
      if content.None? then this else this.(position := Max(position, |content.value|))
    }

    /** The name with every `/` turned into `:`, then percent-encoded. */
    function GetEscapedFileName(escape: string -> string): string
    {
      escape(Replace(name, '/', ':'))
    }
  }

  /**
   * The digest of the whole content as upper-case hex, independent of any
   * stream position: what the file's total hash is meant to be.
   */
  function ContentHash(sha256: seq<byte> -> seq<byte>, data: seq<byte>): (h: string)
    ensures IsUpperHex(h) && FromHexString(h) == Some(sha256(data))
  {
    ToHexStringShape(sha256(data));
    HexRoundTrip(sha256(data));
    ToHexString(sha256(data))
  }

  /**
   * The total hash as the file computes it: the digest of the stream from
   * its current position to the end, which leaves the position at the end.
   * Gives the hash and the new position.
   */
  function StreamDigest(sha256: seq<byte> -> seq<byte>, data: seq<byte>, position: nat): (string, nat)
  {
    (ToHexString(sha256(data[Min(position, |data|)..])), Max(position, |data|))
  }

  /**
   * Asking the file for its total hash twice, starting where a split leaves
   * the stream: the second answer is the digest of no bytes at all, and it
   * equals the first only when the digest cannot tell the content from empty
   * input.
   */
  lemma TotalChunkHashTwice(sha256: seq<byte> -> seq<byte>, data: seq<byte>)
    ensures StreamDigest(sha256, data, 0).0 == ContentHash(sha256, data)
    ensures StreamDigest(sha256, data, StreamDigest(sha256, data, 0).1).0 == ContentHash(sha256, [])
    ensures StreamDigest(sha256, data, StreamDigest(sha256, data, 0).1).0 == StreamDigest(sha256, data, 0).0
            <==> sha256(data) == sha256([])
  {
    assert data[0..] == data;
    assert data[|data|..] == [];
    ToHexStringInjective(sha256(data), sha256([]));
  }

  /** A file whose stream a split left at its start gives the digest of its whole content. */
  lemma StreamHashAtStart(sha256: seq<byte> -> seq<byte>, view: FileView)
    requires view.content.Some? && view.position == 0
    ensures view.StreamHash(sha256) == ContentHash(sha256, view.content.value)
  {
    assert view.Remaining() == view.content.value;
  }

  /** Once the total hash has been read, wherever the stream was, reading it again gives the digest of no bytes. */
  lemma StreamHashAfterDigest(sha256: seq<byte> -> seq<byte>, view: FileView)
    requires view.content.Some?
    ensures view.AfterDigest().StreamHash(sha256) == ContentHash(sha256, [])
    ensures view.AfterDigest().AfterDigest() == view.AfterDigest()
  {
    assert view.AfterDigest().Remaining() == [];
  }

  /** The bytes 0, 1, 2, 3 under a digest that tells them from empty input. */
  lemma TotalChunkHashTwiceWitness(sha256: seq<byte> -> seq<byte>)
    requires sha256([0, 1, 2, 3]) != sha256([])
    ensures StreamDigest(sha256, [0, 1, 2, 3], StreamDigest(sha256, [0, 1, 2, 3], 0).1).0
            != ContentHash(sha256, [0, 1, 2, 3])
  {
    TotalChunkHashTwice(sha256, [0, 1, 2, 3]);
  }

  // The chunks a split appends, as a function of the content.

  /** The chunks read from `pos` onwards in pieces of `size`, numbered from `number`. */
  function SplitFrom(sha256: seq<byte> -> seq<byte>, data: seq<byte>, pos: nat, number: int, size: nat): seq<KDriveChunk>
    decreases |data| - pos
  {
    if size == 0 || pos >= |data| then []
    else
      var end := Min(pos + size, |data|);
      [NewChunk(data[pos..end], number, sha256(data[pos..end]))] + SplitFrom(sha256, data, end, number + 1, size)
  }

  function ChunksOf(sha256: seq<byte> -> seq<byte>, data: seq<byte>, size: nat): seq<KDriveChunk>
  {
    SplitFrom(sha256, data, 0, 0, size)
  }

  lemma {:induction false} SplitFromContents(sha256: seq<byte> -> seq<byte>, data: seq<byte>, pos: nat, number: int, size: nat)
    requires size > 0 && pos <= |data|
    ensures Contents(SplitFrom(sha256, data, pos, number, size)) == data[pos..]
    decreases |data| - pos
  {
    if pos < |data| {
      var end := Min(pos + size, |data|);
      SplitFromContents(sha256, data, end, number + 1, size);
      assert data[pos..end] + data[end..] == data[pos..];
    }
  }

  /** One step of a split: the piece at `pos` followed by the split of the rest. */
  lemma SplitFromUnfold(sha256: seq<byte> -> seq<byte>, data: seq<byte>, pos: nat, number: int, size: nat, n: nat)
    requires 0 < size && pos < |data| && n == Min(size, |data| - pos)
    ensures SplitFrom(sha256, data, pos, number, size)
            == [NewChunk(data[pos..pos + n], number, sha256(data[pos..pos + n]))] + SplitFrom(sha256, data, pos + n, number + 1, size)
  {
  }

  /** Appending the piece at `start` moves the remaining split one piece on. */
  lemma SplitStep(sha256: seq<byte> -> seq<byte>, data: seq<byte>, start: nat, number: int, size: nat, n: nat,
                  done: seq<KDriveChunk>, target: seq<KDriveChunk>, done': seq<KDriveChunk>, start': nat, number': int)
    requires 0 < n && n == Min(size, |data| - start)
    requires target == done + SplitFrom(sha256, data, start, number, size)
    requires done' == done + [NewChunk(data[start..start + n], number, sha256(data[start..start + n]))]
    requires start' == start + n && number' == number + 1
    ensures target == done' + SplitFrom(sha256, data, start', number', size)
  {
    SplitFromUnfold(sha256, data, start, number, size, n);
    AppendAssoc(done, [NewChunk(data[start..start + n], number, sha256(data[start..start + n]))], SplitFrom(sha256, data, start', number', size));
  }

  /** A chunk numbered `number`, of 1 to `size` bytes, carrying the digest of its bytes. */
  predicate WellFormedChunk(sha256: seq<byte> -> seq<byte>, c: KDriveChunk, number: int, size: nat)
  {
    c.chunkNumber == number && c.chunkHash == ToHexString(sha256(c.content)) && 0 < |c.content| <= size
  }

  lemma {:induction false} SplitFromChunks(sha256: seq<byte> -> seq<byte>, data: seq<byte>, pos: nat, number: int, size: nat)
    ensures forall i | 0 <= i < |SplitFrom(sha256, data, pos, number, size)| ::
      && WellFormedChunk(sha256, SplitFrom(sha256, data, pos, number, size)[i], number + i, size)
      && (i < |SplitFrom(sha256, data, pos, number, size)| - 1 ==> |SplitFrom(sha256, data, pos, number, size)[i].content| == size)
    decreases |data| - pos
  {
    if size > 0 && pos < |data| {
      var end := Min(pos + size, |data|);
      SplitFromChunks(sha256, data, end, number + 1, size);
      var cs := SplitFrom(sha256, data, pos, number, size);
      var rest := SplitFrom(sha256, data, end, number + 1, size);
      var piece := data[pos..end];
      assert cs == [NewChunk(piece, number, sha256(piece))] + rest;
      assert rest != [] ==> end == pos + size;
      forall i | 0 <= i < |cs|
        ensures WellFormedChunk(sha256, cs[i], number + i, size) && (i < |cs| - 1 ==> |cs[i].content| == size)
      {
        if i == 0 {
          assert cs[0] == KDriveChunk(ToHexString(sha256(piece)), number, piece);
        } else {
          var j := i - 1;
          assert cs[i] == rest[j];
          assert WellFormedChunk(sha256, rest[j], (number + 1) + j, size);
          assert j < |rest| - 1 ==> |rest[j].content| == size;
        }
      }
    }
  }

  /** Between `(count - 1) * size` exclusive and `count * size` inclusive lies exactly one length. */
  lemma CeilUnique(m: nat, size: nat, count: nat)
    requires size > 0 && m > 0 && (count - 1) * size < m <= count * size
    ensures count == (m + size - 1) / size
  {
    var q := (m + size - 1) / size;
    var r := (m + size - 1) % size;
    assert q * size + r == m + size - 1;
    if q < count {
      assert q <= count - 1;
      assert q * size <= (count - 1) * size by { MulMonotone(q, count - 1, size); }
    } else if q > count {
      assert count + 1 <= q;
      assert (count + 1) * size <= q * size by { MulMonotone(count + 1, q, size); }
    }
  }

  lemma MulMonotone(a: int, b: int, s: nat)
    requires a <= b
    ensures a * s <= b * s
  {
    assert b * s - a * s == (b - a) * s;
  }

  lemma {:induction false} SplitFromCount(sha256: seq<byte> -> seq<byte>, data: seq<byte>, pos: nat, number: int, size: nat)
    requires size > 0 && pos <= |data|
    ensures var c := |SplitFrom(sha256, data, pos, number, size)|;
      if pos == |data| then c == 0 else (c - 1) * size < |data| - pos <= c * size
    decreases |data| - pos
  {
    if pos < |data| {
      var end := Min(pos + size, |data|);
      SplitFromCount(sha256, data, end, number + 1, size);
      var r := |SplitFrom(sha256, data, end, number + 1, size)|;
      assert |SplitFrom(sha256, data, pos, number, size)| == r + 1;
      if end < |data| {
        CountStep(r, size, |data| - end);
      }
    }
  }

  /** One more piece of `size` bytes: `m` bytes needing `c` pieces become `m + size` bytes needing `c + 1`. */
  lemma CountStep(c: int, size: int, m: int)
    requires (c - 1) * size < m <= c * size
    ensures c * size < m + size <= (c + 1) * size
  {
    assert (c + 1) * size == c * size + size;
    assert (c - 1) * size == c * size - size;
  }

  /**
   * What a split appends: chunks numbered 0, 1, 2, ... whose contents put
   * back together are the content, all of `size` bytes except a last one of
   * 1 to `size` bytes, ceil(n / size) of them, each carrying the digest of
   * exactly its own bytes.
   */
  lemma ChunksOfProperties(sha256: seq<byte> -> seq<byte>, data: seq<byte>, size: nat)
    requires size > 0
    ensures var cs := ChunksOf(sha256, data, size);
      && Contents(cs) == data
      && SumSizes(cs) == |data|
      && |cs| == (|data| + size - 1) / size
      && (forall i | 0 <= i < |cs| ::
            WellFormedChunk(sha256, cs[i], i, size) && (i < |cs| - 1 ==> |cs[i].content| == size))
  {
    ChunksOfContents(sha256, data, size);
    ChunksOfCount(sha256, data, size);
    SplitFromChunks(sha256, data, 0, 0, size);
  }

  lemma ChunksOfContents(sha256: seq<byte> -> seq<byte>, data: seq<byte>, size: nat)
    requires size > 0
    ensures Contents(ChunksOf(sha256, data, size)) == data
  {
    SplitFromContents(sha256, data, 0, 0, size);
    assert data[0..] == data;
  }

  lemma ChunksOfCount(sha256: seq<byte> -> seq<byte>, data: seq<byte>, size: nat)
    requires size > 0
    ensures |ChunksOf(sha256, data, size)| == (|data| + size - 1) / size
  {
    SplitFromCount(sha256, data, 0, 0, size);
    if data != [] {
      CeilUnique(|data|, size, |ChunksOf(sha256, data, size)|);
    }
  }

  /** Empty content, or a chunk size of zero, gives no chunks. */
  lemma ChunksOfEmpty(sha256: seq<byte> -> seq<byte>, data: seq<byte>, size: nat)
    requires data == [] || size == 0
    ensures ChunksOf(sha256, data, size) == []
  {
  }

  /** The chunk counts the file tests expect for a chunk size of 1000. */
  lemma ChunkCountExamples(sha256: seq<byte> -> seq<byte>, d2000: seq<byte>, d2001: seq<byte>, d2500: seq<byte>, d500: seq<byte>)
    requires |d2000| == 2000 && |d2001| == 2001 && |d2500| == 2500 && |d500| == 500
    ensures |ChunksOf(sha256, d2000, 1000)| == 2
    ensures |ChunksOf(sha256, d2001, 1000)| == 3
    ensures |ChunksOf(sha256, d2500, 1000)| == 3
    ensures |ChunksOf(sha256, d500, 1000)| == 1
  {
    ChunksOfProperties(sha256, d2000, 1000);
    ChunksOfProperties(sha256, d2001, 1000);
    ChunksOfProperties(sha256, d2500, 1000);
    ChunksOfProperties(sha256, d500, 1000);
  }

  class KDriveFile {
    var createdAt: int
    var directoryId: Option<string>
    var directoryPath: Option<string>
    var name: string
    var lastModifiedAt: int
    var symbolicLink: Option<string>
    var chunks: seq<KDriveChunk>
    const content: Stream?

    /** A file with a name and a content stream; every other property at its default. */
    constructor (name: string, content: Stream?)
      ensures this.name == name && this.content == content && chunks == []
      ensures directoryId.None? && directoryPath.None? && symbolicLink.None?
      ensures createdAt == 0 && lastModifiedAt == 0
    {
      this.name := name;
      this.content := content;
      chunks := [];
      directoryId, directoryPath, symbolicLink := None, None, None;
      createdAt, lastModifiedAt := 0, 0;
    }

    function View(): FileView
      reads this, content
    {
      FileView(name, directoryId, directoryPath, symbolicLink, createdAt, lastModifiedAt, chunks,
               if content == null then None else Some(content.data),
               if content == null then 0 else content.position)
    }

    /**
     * Reads the content from position 0 in pieces of `chunkSize` bytes and
     * appends one chunk per piece, numbered from 0, keeping the chunks already
     * there; the position is 0 again afterwards. A negative size fails when the
     * read buffer is allocated, a missing stream when its position is reset.
     */
    method SplitIntoChunks(sha256: seq<byte> -> seq<byte>, chunkSize: int) returns (outcome: Outcome<Exception>)
      modifies this`chunks, content
      ensures chunkSize < 0 ==> outcome == Fail(OverflowException)
      ensures chunkSize >= 0 && content == null ==> outcome == Fail(NullReferenceException)
      ensures outcome.Fail? ==> chunks == old(chunks) && (content != null ==> content.position == old(content.position))
      ensures chunkSize >= 0 && content != null ==>
        && outcome == Pass
        && chunks == old(chunks) + ChunksOf(sha256, content.data, chunkSize)
        && content.position == 0
    {
      if chunkSize < 0 {
        return Fail(OverflowException);
      }
      var buffer := new byte[chunkSize];
      if content == null {
        return Fail(NullReferenceException);
      }
      content.position := 0;
      AppendChunks(sha256, buffer);
      content.position := 0;
      return Pass;
    }

    /** The read loop of the split: from the current position, which is 0, to the end of the stream. */
    method AppendChunks(sha256: seq<byte> -> seq<byte>, buffer: array<byte>)
      requires content != null && content.position == 0
      modifies this`chunks, content, buffer
      ensures chunks == old(chunks) + ChunksOf(sha256, content.data, buffer.Length)
    {
      var chunkSize := buffer.Length;
      var chunkNumber := 0;
      ghost var data := content.data;
      ghost var target := chunks + ChunksOf(sha256, data, chunkSize);
      ghost var start: nat := 0;
      while true
        invariant content.position == start <= |data|
        invariant target == chunks + SplitFrom(sha256, data, start, chunkNumber, chunkSize)
        decreases |data| - start
      {
        var bytesRead: nat := content.Read(buffer, 0, chunkSize);
        if bytesRead == 0 {
          break;
        }
        var piece := buffer[0..bytesRead];
        assert piece == data[start..start + bytesRead];
        ghost var before, beforeStart, beforeNumber := chunks, start, chunkNumber;
        chunks := chunks + [NewChunk(piece, chunkNumber, sha256(piece))];
        chunkNumber := chunkNumber + 1;
        start := start + bytesRead;
        SplitStep(sha256, data, beforeStart, beforeNumber, chunkSize, bytesRead, before, target, chunks, start, chunkNumber);
      }
    }

    /**
     * The total hash as written: the digest of the stream from its current
     * position, which is left at the end. A missing stream is rejected by the
     * digest function.
     */
    method TotalChunkHash(sha256: seq<byte> -> seq<byte>) returns (r: Result<string, Exception>)
      modifies content
      ensures content == null ==> r == Err(ArgumentNullException)
      ensures content != null ==>
        var (hash, after) := StreamDigest(sha256, content.data, old(content.position));
        r == Ok(hash) && content.position == after
      ensures content != null ==> r == Ok(old(View()).StreamHash(sha256)) && View() == old(View()).AfterDigest()
    {
      if content == null {
        return Err(ArgumentNullException);
      }
      var start := Min(content.position, |content.data|);
      r := Ok(ToHexString(sha256(content.data[start..])));
      content.position := Max(content.position, |content.data|);
    }
  }
}
