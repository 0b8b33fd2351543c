/** Checking the chunks of a toasted value (contrib/amcheck/verify_heapam.c). */
module ToastCheck {
  import opened Options

  const CHUNK_SIZE: nat := 1996
  const TWO32: nat := 0x1_0000_0000

  /** The data of a chunk: null, with a header no chunk may have, or so many bytes. */
  datatype Data = Null | BadHeader | Bytes(size: int)

  datatype Chunk = Chunk(seqno: Option<int>, data: Data)

  datatype Report =
    | NullSeqno
    | WrongSeqno(got: int, expected: int)
    | NullData(seqno: int)
    | InvalidHeader(seqno: int)
    | PastLast(seqno: int)
    | WrongSize(seqno: int, got: int, expected: int)
    | NotFound
    | EndedEarly(expected: int)

  /** The number of the last chunk; the subtraction is on uint32. */
  function LastChunk(extsize: nat): nat
    requires extsize < TWO32
  {
    ((extsize + TWO32 - 1) % TWO32) / CHUNK_SIZE
  }

  /** The size a chunk must have, again on uint32. */
  function ExpectedSize(extsize: nat, k: int): int
    requires extsize < TWO32
  {
    if k < LastChunk(extsize) then CHUNK_SIZE
    else (extsize + TWO32 - LastChunk(extsize) * CHUNK_SIZE) % TWO32
  }

  /** How many bytes the check asks for: the external size, or 2^32 when that is zero. */
  function Total(extsize: nat): nat {
    if extsize == 0 then TWO32 else extsize
  }

  lemma LastChunkIs(extsize: nat)
    requires extsize < TWO32
    ensures var n := LastChunk(extsize);
            n * CHUNK_SIZE < Total(extsize) <= (n + 1) * CHUNK_SIZE
            && ExpectedSize(extsize, n) == Total(extsize) - n * CHUNK_SIZE
  {
    var n := LastChunk(extsize);
    var t := Total(extsize) - 1;
    assert n == t / CHUNK_SIZE;
    assert t == n * CHUNK_SIZE + t % CHUNK_SIZE;
    assert 1 <= Total(extsize) - n * CHUNK_SIZE <= CHUNK_SIZE;
    assert extsize != 0 ==> (extsize + TWO32 - n * CHUNK_SIZE) % TWO32 == extsize - n * CHUNK_SIZE;
  }

  predicate ChunkOk(c: Chunk, k: int, extsize: nat)
    requires extsize < TWO32
  {
    c.seqno == Some(k) && k <= LastChunk(extsize) && c.data == Bytes(ExpectedSize(extsize, k))
  }

  /** The chunks are numbered 0 to the last in order and each has the size it must have. */
  predicate Intact(chunks: seq<Chunk>, extsize: nat)
    requires extsize < TWO32
  {
    |chunks| == LastChunk(extsize) + 1 && forall k :: 0 <= k < |chunks| ==> ChunkOk(chunks[k], k, extsize)
  }

  /** check_toast_tuple. */
  method CheckChunk(c: Chunk, expected: int, extsize: nat) returns (reports: seq<Report>, next: int)
    requires extsize < TWO32
    ensures reports == [] <==> ChunkOk(c, expected, extsize)
    ensures next == if c.seqno.Some? then c.seqno.value + 1 else expected
  {
    reports, next := [], expected;
    if c.seqno.None? {
      return [NullSeqno], next;
    }
    var seqno := c.seqno.value;
    if seqno != expected {
      reports := [WrongSeqno(seqno, expected)];
    }
    next := seqno + 1;
    if c.data.Null? {
      return reports + [NullData(seqno)], next;
    }
    if c.data.BadHeader? {
      return reports + [InvalidHeader(seqno)], next;
    }
    if seqno > LastChunk(extsize) {
      return reports + [PastLast(seqno)], next;
    }
    if c.data.size != ExpectedSize(extsize, seqno) {
      reports := reports + [WrongSize(seqno, c.data.size, ExpectedSize(extsize, seqno))];
    }
  }

  /** check_toasted_attribute: nothing is reported exactly when the chunks are intact. */
  method CheckValue(chunks: seq<Chunk>, extsize: nat) returns (reports: seq<Report>)
    requires extsize < TWO32
    ensures reports == [] <==> Intact(chunks, extsize)
  {
    reports := [];
    var expected := 0;
    for i := 0 to |chunks|
      invariant reports == [] <==> forall k :: 0 <= k < i ==> ChunkOk(chunks[k], k, extsize)
      invariant reports == [] ==> expected == i
    {
      var rs;
      rs, expected := CheckChunk(chunks[i], expected, extsize);
      reports := reports + rs;
    }
    if chunks == [] {
      reports := reports + [NotFound];
    } else if expected <= LastChunk(extsize) {
      reports := reports + [EndedEarly(expected)];
    } else if reports == [] {
      assert ChunkOk(chunks[|chunks| - 1], |chunks| - 1, extsize);
    }
  }

  function Sum(chunks: seq<Chunk>, n: nat): int
    requires n <= |chunks|
  {
    if n == 0 then 0 else Sum(chunks, n - 1) + if chunks[n - 1].data.Bytes? then chunks[n - 1].data.size else 0
  }

  lemma {:induction false} FullChunks(chunks: seq<Chunk>, extsize: nat, n: nat)
    requires extsize < TWO32 && Intact(chunks, extsize) && n <= LastChunk(extsize)
    ensures Sum(chunks, n) == n * CHUNK_SIZE
  {
    if n > 0 {
      FullChunks(chunks, extsize, n - 1);
      assert ChunkOk(chunks[n - 1], n - 1, extsize);
    }
  }

  /** A value that passes has all its bytes: the chunk sizes add up to the external size unless that is zero. */
  lemma {:induction false} IntactAddsUp(chunks: seq<Chunk>, extsize: nat)
    requires extsize < TWO32 && Intact(chunks, extsize)
    ensures Sum(chunks, |chunks|) == Total(extsize)
    ensures Sum(chunks, |chunks|) == extsize <==> extsize != 0
  {
    var n := LastChunk(extsize);
    FullChunks(chunks, extsize, n);
    LastChunkIs(extsize);
    assert ChunkOk(chunks[n], n, extsize);
  }
}
