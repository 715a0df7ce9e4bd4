/**
 * The file chunker and file assembler of the transfer layer.
 *
 * A `FileChunker` walks a file in `chunkSize` pieces with a position cursor;
 * a `FileAssembler` accumulates written bytes in a destination file and
 * checks the final size.  Files are byte sequences: `content` is what reads
 * of the opened file return, `data` is what the destination file holds.
 */
module Chunking {
  import opened Common

  /** 64 KiB, the chunk size used when the caller gives none. */
  const DEFAULT_CHUNK_SIZE: nat := 64 * 1024

  /**
   * The chunks that successive `NextChunk` calls return when the cursor
   * starts at `pos`: reads of `size` bytes, the last one shorter, until the
   * end of the file.  A zero-sized buffer reads nothing, so it yields none.
   */
  function Chunks(content: seq<byte>, pos: nat, size: nat): (cs: seq<seq<byte>>)
    requires pos <= |content|
    ensures cs == [] <==> pos == |content| || size == 0
    ensures forall i :: 0 <= i < |cs| ==> 1 <= |cs[i]| <= size
    decreases |content| - pos
  {
    if pos == |content| || size == 0 then []
    else
      var n := Min(size, |content| - pos);
      [content[pos..pos + n]] + Chunks(content, pos + n, size)
  }

  /** The bytes of a list of chunks, one after the other. */
  function Flatten(cs: seq<seq<byte>>): seq<byte>
  {
    if cs == [] then [] else cs[0] + Flatten(cs[1..])
  }

  /** Round trip: the chunks read from `pos` concatenate back to the rest of the file. */
  lemma {:induction false} ChunksConcatenate(content: seq<byte>, pos: nat, size: nat)
    requires pos <= |content| && size > 0
    ensures Flatten(Chunks(content, pos, size)) == content[pos..]
    decreases |content| - pos
  {
    if pos < |content| {
      var n := Min(size, |content| - pos);
      ChunksConcatenate(content, pos + n, size);
      var cs := Chunks(content, pos, size);
      assert cs[1..] == Chunks(content, pos + n, size);
      assert content[pos..] == content[pos..pos + n] + content[pos + n..];
    }
  }

  /** Every chunk but the last is exactly `size` bytes long. */
  lemma {:induction false} ChunksAreFull(content: seq<byte>, pos: nat, size: nat, i: nat)
    requires pos <= |content|
    requires i + 1 < |Chunks(content, pos, size)|
    ensures |Chunks(content, pos, size)[i]| == size
    decreases |content| - pos
  {
    var n := Min(size, |content| - pos);
    if i > 0 {
      ChunksAreFull(content, pos + n, size, i - 1);
    } else {
      assert Chunks(content, pos + n, size) != [];
    }
  }

  class FileChunker {
    /** The bytes of the opened file. */
    const content: seq<byte>
    const chunkSize: nat
    /** The size reported by the file's metadata when it was opened. */
    const fileSize: nat
    var currentPosition: nat

    ghost predicate Valid()
      reads this
    {
      fileSize == |content| && currentPosition <= fileSize
    }

    /** Opens the file; `chunkSize` defaults to DEFAULT_CHUNK_SIZE. */
    constructor (content: seq<byte>, chunkSize: Option<nat>)
      ensures Valid()
      ensures this.content == content && fileSize == |content| && currentPosition == 0
      ensures this.chunkSize == if chunkSize.Some? then chunkSize.value else DEFAULT_CHUNK_SIZE
    {
      this.content := content;
      this.chunkSize := if chunkSize.Some? then chunkSize.value else DEFAULT_CHUNK_SIZE;
      this.fileSize := |content|;
      this.currentPosition := 0;
    }

    /** The cursor is at (or past) the end: with a non-empty buffer, exactly when no chunk is left to read. */
    function IsComplete(): (done: bool)
      reads this
      ensures Valid() && chunkSize > 0 ==> (done <==> Remaining() == [])
    {
      currentPosition >= fileSize
    }

    /** The chunks still to come. */
    ghost function Remaining(): seq<seq<byte>>
      reads this
      requires Valid()
    {
      Chunks(content, currentPosition, chunkSize)
    }

    /**
     * Seeks to the cursor and reads one buffer of `chunkSize` bytes; the
     * buffer is cut to the bytes actually read and the cursor advances by
     * that many.  Nothing is returned once the cursor is at the end of the
     * file, or when the read returns no byte.
     */
    method NextChunk() returns (chunk: Option<seq<byte>>)
      requires Valid()
      modifies this
      ensures Valid()
      ensures old(IsComplete()) ==> chunk.None?
      ensures chunk.None? ==> currentPosition == old(currentPosition) && old(Remaining()) == []
      ensures chunk.Some? ==>
        && 1 <= |chunk.value| <= chunkSize
        && currentPosition == old(currentPosition) + |chunk.value|
        && chunk.value == content[old(currentPosition)..currentPosition]
        && old(Remaining()) == [chunk.value] + Remaining()
    {
      if IsComplete() {
        return None;
      }
      var bytesRead := Min(chunkSize, fileSize - currentPosition);
      if bytesRead == 0 {
        return None;
      }
      var start := currentPosition;
      currentPosition := currentPosition + bytesRead;
      chunk := Some(content[start..currentPosition]);
    }

    /** Moves the cursor back to the start of the file. */
    method Reset()
      requires Valid()
      modifies this
      ensures Valid()
      ensures currentPosition == 0 && Remaining() == Chunks(content, 0, chunkSize)
    {
      currentPosition := 0;
    }
  }

  /** `n` zero bytes: the hole a write past the end of a file leaves. */
  function Zeros(n: nat): (z: seq<byte>)
    ensures |z| == n && forall i :: 0 <= i < n ==> z[i] == 0
  {
    seq(n, _ => 0)
  }

  /**
   * The file `data` after writing `chunk` at offset `at`: the chunk
   * overwrites what was there, the file grows when the chunk ends past its
   * end, and a gap between the old end and `at` reads as zero bytes.
   */
  function WriteAt(data: seq<byte>, at: nat, chunk: seq<byte>): (r: seq<byte>)
    ensures |r| == if at + |chunk| > |data| then at + |chunk| else |data|
    ensures r[at..at + |chunk|] == chunk
    ensures forall i :: 0 <= i < |r| && (i < at || at + |chunk| <= i) ==>
      r[i] == if i < |data| then data[i] else 0
  {
    var padded := if at > |data| then data + Zeros(at - |data|) else data;
    padded[..at] + chunk + (if at + |chunk| < |padded| then padded[at + |chunk|..] else [])
  }

  /** Writing at the end of a file appends. */
  lemma WriteAtEndAppends(data: seq<byte>, chunk: seq<byte>)
    ensures WriteAt(data, |data|, chunk) == data + chunk
  {
    var r := WriteAt(data, |data|, chunk);
    assert |r| == |data| + |chunk|;
    forall i | 0 <= i < |r| ensures r[i] == (data + chunk)[i] {
      if i >= |data| {
        assert r[i] == r[|data|..|data| + |chunk|][i - |data|];
      }
    }
  }

  class FileAssembler {
    const filePath: string
    const expectedSize: nat
    /** The number of bytes written so far. */
    var currentSize: nat
    /** The contents of the destination file. */
    var data: seq<byte>
    /** The write offset of the destination file's handle. */
    var offset: nat

    /** Every write so far went to the end of the file, so the count is the file's length. */
    ghost predicate Sequential()
      reads this
    {
      offset == |data| && currentSize == |data|
    }

    /** Creates (or truncates) the destination file. */
    constructor (filePath: string, expectedSize: nat)
      ensures Sequential()
      ensures this.filePath == filePath && this.expectedSize == expectedSize
      ensures currentSize == 0 && data == [] && offset == 0
    {
      this.filePath := filePath;
      this.expectedSize := expectedSize;
      this.currentSize := 0;
      this.data := [];
      this.offset := 0;
    }

    /**
     * At least the expected number of bytes was written.  An incomplete
     * assembly cannot finish; after sequential writes the count is the
     * file's length.
     */
    function IsComplete(): (done: bool)
      reads this
      ensures !done ==> currentSize != expectedSize
      ensures Sequential() ==> (done <==> |data| >= expectedSize)
    {
      currentSize >= expectedSize
    }

    /**
     * Seeks to `position` when one is given, writes the whole chunk there,
     * and adds its length to `currentSize` in either case.
     */
    method WriteChunk(chunk: seq<byte>, position: Option<nat>)
      modifies this
      ensures currentSize == old(currentSize) + |chunk|
      ensures var at := if position.Some? then position.value else old(offset);
        data == WriteAt(old(data), at, chunk) && offset == at + |chunk|
      ensures old(Sequential()) && position.None? ==> Sequential() && data == old(data) + chunk
    {
      if position.Some? {
        offset := position.value;
      }
      if old(Sequential()) && position.None? {
        WriteAtEndAppends(data, chunk);
      }
      data := WriteAt(data, offset, chunk);
      offset := offset + |chunk|;
      currentSize := currentSize + |chunk|;
    }

    /** Closes the file and checks that exactly `expectedSize` bytes were written. */
    method Finish() returns (r: Result<string>)
      ensures r.Ok? <==> currentSize == expectedSize
      ensures r.Ok? ==> r.value == filePath
      ensures r.Err? ==> r.error == SizeMismatch(expectedSize, currentSize)
    {
      if currentSize != expectedSize {
        return Err(SizeMismatch(expectedSize, currentSize));
      }
      return Ok(filePath);
    }
  }
}
