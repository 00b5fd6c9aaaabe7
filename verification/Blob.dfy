/** packages/core/src/conversation-archive.ts: chunked upload and download of
    one blob of an archive. SHA-256 is taken as ideal, as in ArchiveState. */
module Blob {
  import opened Wrappers

  type Bytes = seq<int>

  datatype Sha = Sha(preimage: Bytes)

  datatype ChunkRow = ChunkRow(offset: nat, data: Bytes, sha: Sha)

  datatype BlobRow = BlobRow(sha: Sha, size: nat, received: nat, complete: bool)

  datatype BlobFailure = InvalidParams | NotFound | Gap | Conflict | Capacity | Integrity

  datatype Receipt = Receipt(complete: bool, received: nat)

  const CHUNK_BYTES := 262144

  /** Where chunk `i` starts. */
  function StartOf(i: nat): nat {
    i * 262144
  }

  /** The length of the chunk at `offset` of a blob of `size` bytes. */
  function ChunkLength(size: nat, offset: nat): nat
    requires offset <= size
  {
    Min(CHUNK_BYTES, size - offset)
  }

  /** The bytes stored so far, in offset order. */
  function Joined(chunks: seq<ChunkRow>): Bytes {
    if chunks == [] then [] else Joined(chunks[..|chunks| - 1]) + chunks[|chunks| - 1].data
  }

  function Find(chunks: seq<ChunkRow>, offset: nat): Option<ChunkRow> {
    if chunks == [] then None
    else if chunks[|chunks| - 1].offset == offset then Some(chunks[|chunks| - 1])
    else Find(chunks[..|chunks| - 1], offset)
  }

  /** `checkedChunk`. */
  predicate ChunkSound(c: ChunkRow, size: nat, offset: nat) {
    offset <= size && c.offset == offset && |c.data| == ChunkLength(size, offset) && c.sha == Sha(c.data)
  }

  /** Full chunks, one after the other, with no gap; only a last one may be short. */
  ghost predicate Contiguous(chunks: seq<ChunkRow>, size: nat) {
    forall i | 0 <= i < |chunks| :: StartOf(i) < size && ChunkSound(chunks[i], size, StartOf(i))
  }

  ghost predicate Sound(row: Option<BlobRow>, chunks: seq<ChunkRow>) {
    match row
    case None => chunks == []
    case Some(r) =>
      && Contiguous(chunks, r.size)
      && r.received == |Joined(chunks)| <= r.size
      && (r.complete <==> r.received == r.size)
      && (r.complete ==> r.sha == Sha(Joined(chunks)))
  }

  lemma {:induction false} JoinedLength(chunks: seq<ChunkRow>, size: nat)
    requires Contiguous(chunks, size)
    ensures |Joined(chunks)| == Min(StartOf(|chunks|), size)
  {
    if chunks != [] {
      JoinedLength(chunks[..|chunks| - 1], size);
      assert ChunkSound(chunks[|chunks| - 1], size, StartOf(|chunks| - 1));
    }
  }

  /** A chunk is where its offset says it is. */
  lemma {:induction false} ChunkInPlace(chunks: seq<ChunkRow>, size: nat, i: nat)
    requires Contiguous(chunks, size) && i < |chunks|
    ensures StartOf(i) + |chunks[i].data| <= |Joined(chunks)|
    ensures Joined(chunks)[StartOf(i)..StartOf(i) + |chunks[i].data|] == chunks[i].data
    ensures Find(chunks, StartOf(i)) == Some(chunks[i])
  {
    var n := |chunks| - 1;
    var front := chunks[..n];
    JoinedLength(front, size);
    assert ChunkSound(chunks[n], size, StartOf(n));
    if i < n {
      ChunkInPlace(front, size, i);
      assert Joined(chunks)[..|Joined(front)|] == Joined(front);
      assert Joined(chunks)[StartOf(i)..StartOf(i) + |chunks[i].data|]
             == Joined(front)[StartOf(i)..StartOf(i) + |chunks[i].data|];
    }
  }

  lemma {:induction false} NoChunkBeyond(chunks: seq<ChunkRow>, size: nat, offset: nat)
    requires Contiguous(chunks, size) && offset >= StartOf(|chunks|)
    ensures Find(chunks, offset) == None
  {
    if chunks != [] {
      assert ChunkSound(chunks[|chunks| - 1], size, StartOf(|chunks| - 1));
      NoChunkBeyond(chunks[..|chunks| - 1], size, offset);
    }
  }

  /** `verifyBlob`: every chunk in place, none missing, and a complete blob hashes
      to its declared digest. It accepts exactly the sound blobs. */
  method VerifyBlob(row: BlobRow, chunks: seq<ChunkRow>) returns (ok: bool)
    requires row.received <= row.size && (row.complete <==> row.received == row.size)
    ensures ok <==> Sound(Some(row), chunks)
  {
    var offset, digest := 0, [];
    for i := 0 to |chunks|
      invariant Contiguous(chunks[..i], row.size) && digest == Joined(chunks[..i]) && offset == |digest|
    {
      var c := chunks[i];
      JoinedLength(chunks[..i], row.size);
      assert chunks[..i + 1][..i] == chunks[..i];
      if offset > row.size || !ChunkSound(c, row.size, offset) || c.data == [] {
        NotContiguous(chunks, row.size, i, offset);
        return false;
      }
      assert offset == StartOf(i);
      digest, offset := digest + c.data, offset + |c.data|;
    }
    assert chunks[..|chunks|] == chunks;
    return offset == row.received && (row.complete ==> Sha(digest) == row.sha);
  }

  lemma NotContiguous(chunks: seq<ChunkRow>, size: nat, i: nat, offset: nat)
    requires i < |chunks| && offset == Min(StartOf(i), size)
    requires !ChunkSound(chunks[i], size, offset) || chunks[i].data == []
    ensures !Contiguous(chunks, size)
  {
    assert StartOf(i) < size ==> ChunkLength(size, StartOf(i)) > 0;
  }

  class ArchiveBlob {
    var row: Option<BlobRow>
    var chunks: seq<ChunkRow>

    constructor ()
      ensures Valid() && row == None
    {
      row, chunks := None, [];
    }

    ghost predicate Valid()
      reads this
    {
      Sound(row, chunks)
    }

    ghost function Content(): Bytes
      reads this
    {
      Joined(chunks)
    }

    /** `writeBlob`, for an archive that exists. `reserved` says whether the quota has
        room for the whole blob, `space` whether the disk has room for the chunk.
        One transaction: a refused chunk changes nothing. */
    method Write(sha: Sha, size: nat, offset: nat, data: Bytes, reserved: bool, space: bool)
      returns (r: Result<Receipt, BlobFailure>)
      requires Valid()
      modifies this
      ensures Valid() && old(Content()) <= Content()
      ensures r.Err? ==> row == old(row) && chunks == old(chunks)
      ensures r.Ok? ==>
                && row.Some? && row.value.sha == sha && row.value.size == size
                && r.value == Receipt(row.value.complete, row.value.received)
                && row.value.received == |Content()|
                // The chunk is where it belongs, now and, as content only grows, from now on.
                && offset + |data| <= |Content()| && Content()[offset..offset + |data|] == data
                && (Content() == old(Content()) || Content() == old(Content()) + data)
      ensures r == WriteAnswer(old(row), old(Content()), sha, size, offset, data, reserved, space)
    {
      hide Contiguous, Joined;
      if offset % CHUNK_BYTES != 0 || offset > size || |data| != ChunkLength(size, offset) || (size > 0 && data == []) {
        return Err(InvalidParams);
      }
      if row.Some? && (row.value.sha != sha || row.value.size != size) { return Err(Conflict); }
      SoundFacts(row, chunks, offset);
      if row.None? {
        if offset != 0 { return Err(Gap); }
        if !reserved { return Err(Capacity); }
      } else if offset < row.value.received || row.value.complete {
        if size > 0 {
          var chunk := Find(chunks, offset);
          if chunk.None? || chunk.value.data != data { return Err(Conflict); }
        }
        return Ok(Receipt(row.value.complete, row.value.received));
      }
      var had := if row.Some? then row.value.received else 0;
      if offset != had { return Err(Gap); }
      if !space { return Err(Capacity); }
      var added := if data != [] then chunks + [ChunkRow(offset, data, Sha(data))] else chunks;
      var received := offset + |data|;
      var next := BlobRow(sha, size, received, received == size);
      ChunkAdded(row, chunks, sha, size, offset, data);
      var ok := VerifyBlob(next, added);
      if !ok { return Err(Integrity); }
      row, chunks := Some(next), added;
      return Ok(Receipt(next.complete, next.received));
    }

    /** `readBlob`: one chunk of a complete blob and where the next one starts. */
    method Read(sha: Sha, size: nat, offset: nat) returns (r: Result<(Bytes, Option<nat>), BlobFailure>)
      requires Valid()
      ensures if row.Some? && (row.value.sha != sha || row.value.size != size) then r == Err(Conflict)
              else if row.None? then r == Err(NotFound)
              else if !row.value.complete then r == Err(Gap)
              else if offset % CHUNK_BYTES != 0
                  || (offset >= size && (offset != 0 || size != 0)) then r == Err(InvalidParams)
              else
                var n := ChunkLength(size, offset);
                && offset + n <= |Content()|
                && r == Ok((Content()[offset..offset + n], if offset + n < size then Some(offset + n) else None))
    {
      hide Contiguous, Joined;
      if row.Some? && (row.value.sha != sha || row.value.size != size) { return Err(Conflict); }
      if row.None? { return Err(NotFound); }
      if !row.value.complete { return Err(Gap); }
      if offset % CHUNK_BYTES != 0 || (offset >= size && (offset != 0 || size != 0)) { return Err(InvalidParams); }
      SoundFacts(row, chunks, offset);
      var data := [];
      if size > 0 {
        var chunk := Find(chunks, offset);
        data := chunk.value.data;
      }
      var next := offset + |data|;
      return Ok((data, if next < size then Some(next) else None));
    }
  }

  /** What `writeBlob` answers, in terms of the bytes stored so far. */
  function WriteAnswer(row: Option<BlobRow>, content: Bytes, sha: Sha, size: nat, offset: nat, data: Bytes,
                       reserved: bool, space: bool)
    : Result<Receipt, BlobFailure>
  {
    if offset % CHUNK_BYTES != 0 || offset > size || |data| != ChunkLength(size, offset)
        || (size > 0 && data == []) then Err(InvalidParams)
    else if row.Some? && (row.value.sha != sha || row.value.size != size) then Err(Conflict)
    else if offset + |data| <= |content| && row.Some? then
      if content[offset..offset + |data|] == data then Ok(Receipt(|content| == size, |content|)) else Err(Conflict)
    else if offset != |content| then Err(Gap)
    else if row.None? && !reserved then Err(Capacity)
    else if !space then Err(Capacity)
    else if offset + |data| == size && Sha(content + data) != sha then Err(Integrity)
    else Ok(Receipt(offset + |data| == size, offset + |data|))
  }

  /** What soundness says about the chunk at an aligned offset. */
  lemma SoundFacts(row: Option<BlobRow>, chunks: seq<ChunkRow>, offset: nat)
    requires Sound(row, chunks) && offset % CHUNK_BYTES == 0
    ensures row.None? ==> Joined(chunks) == []
    ensures row.Some? && offset < row.value.received ==>
              var n := ChunkLength(row.value.size, offset);
              && Find(chunks, offset).Some? && |Find(chunks, offset).value.data| == n
                 && offset + n <= row.value.received
              && Joined(chunks)[offset..offset + n] == Find(chunks, offset).value.data
    ensures row.Some? && row.value.complete && row.value.size > 0 && offset >= row.value.received ==>
              Find(chunks, offset) == None
  {
    if row.Some? {
      var i := offset / CHUNK_BYTES;
      JoinedLength(chunks, row.value.size);
      if offset < row.value.received {
        assert i < |chunks|;
        ChunkInPlace(chunks, row.value.size, i);
        assert ChunkSound(chunks[i], row.value.size, StartOf(i));
      } else if row.value.complete && row.value.size > 0 {
        LastChunkStarts(chunks, row.value.size);
        NoChunkBeyond(chunks, row.value.size, offset);
      }
    }
  }

  /** A complete blob's chunks end where its last chunk's successor would start. */
  lemma LastChunkStarts(chunks: seq<ChunkRow>, size: nat)
    requires Contiguous(chunks, size) && size > 0 && |Joined(chunks)| == size
    ensures StartOf(|chunks| - 1) < size <= StartOf(|chunks|)
  {
    JoinedLength(chunks, size);
    if chunks != [] { assert ChunkSound(chunks[|chunks| - 1], size, StartOf(|chunks| - 1)); }
  }

  lemma ChunkAdded(row: Option<BlobRow>, chunks: seq<ChunkRow>, sha: Sha, size: nat, offset: nat, data: Bytes)
    requires Sound(row, chunks) && (row.Some? ==> row.value.sha == sha && row.value.size == size && !row.value.complete)
    requires offset == |Joined(chunks)| && offset % CHUNK_BYTES == 0 && offset <= size
    requires |data| == ChunkLength(size, offset) && (size > 0 ==> data != [])
    ensures var added := if data != [] then chunks + [ChunkRow(offset, data, Sha(data))] else chunks;
            var received := offset + |data|;
            && Joined(added) == Joined(chunks) + data
            && (Sound(Some(BlobRow(sha, size, received, received == size)), added)
                <==> (received == size ==> sha == Sha(Joined(chunks) + data)))
  {
    if row.None? { assert Contiguous(chunks, size); }
    JoinedLength(chunks, size);
    if data != [] {
      var added := chunks + [ChunkRow(offset, data, Sha(data))];
      assert added[..|chunks|] == chunks;
      assert offset == StartOf(|chunks|);
      forall i | 0 <= i < |added| ensures StartOf(i) < size && ChunkSound(added[i], size, StartOf(i)) {
        assert i < |chunks| ==> ChunkSound(chunks[i], size, StartOf(i));
      }
    } else {
      assert Joined(chunks) + data == Joined(chunks);
    }
  }

  // ---------------------------------------------------------------------
  // Whole uploads and downloads
  // ---------------------------------------------------------------------

  datatype WriteRequest = WriteRequest(sha: Sha, size: nat, offset: nat, data: Bytes, reserved: bool, space: bool)

  /** Any order of writes, retries and resumed uploads: what was accepted stays,
      each accepted chunk at its offset, and a blob that became complete is the one
      file that hashes to its declared digest. */
  method Upload(blob: ArchiveBlob, requests: seq<WriteRequest>) returns (accepted: set<nat>)
    requires blob.Valid()
    modifies blob
    ensures blob.Valid() && old(blob.Content()) <= blob.Content()
    ensures forall i | i in accepted ::
              && i < |requests| && requests[i].offset + |requests[i].data| <= |blob.Content()|
              && blob.Content()[requests[i].offset..requests[i].offset + |requests[i].data|] == requests[i].data
    ensures blob.row.Some? && blob.row.value.complete ==> blob.row.value.sha == Sha(blob.Content())
  {
    hide Contiguous, Joined, WriteAnswer;
    accepted := {};
    for n := 0 to |requests|
      invariant blob.Valid() && old(blob.Content()) <= blob.Content()
      invariant forall i | i in accepted ::
                  && i < n && requests[i].offset + |requests[i].data| <= |blob.Content()|
                  && blob.Content()[requests[i].offset..requests[i].offset + |requests[i].data|] == requests[i].data
    {
      ghost var before := blob.Content();
      var q := requests[n];
      var r := blob.Write(q.sha, q.size, q.offset, q.data, q.reserved, q.space);
      if r.Ok? { accepted := accepted + {n}; }
      forall i | i in accepted && i < n
        ensures blob.Content()[requests[i].offset..requests[i].offset + |requests[i].data|] == requests[i].data
      {
        assert before == blob.Content()[..|before|];
      }
    }
  }

  /** A blob that holds a first part of the file under the file's own digest and size,
      possibly nothing or all of it. */
  ghost predicate PartOf(blob: ArchiveBlob, file: Bytes)
    reads blob
  {
    && blob.Valid() && blob.Content() <= file
    && (blob.row.Some? ==> blob.row.value.sha == Sha(file) && blob.row.value.size == |file|)
  }

  /** An unfinished blob ends at a chunk boundary, and any blob with content has its first chunk. */
  lemma PartIsAligned(blob: ArchiveBlob, file: Bytes)
    requires PartOf(blob, file)
    ensures blob.row.Some? && !blob.row.value.complete ==>
              |blob.Content()| % CHUNK_BYTES == 0 && |blob.Content()| < |file|
    ensures blob.row.Some? && |blob.Content()| > 0 ==> |blob.Content()| >= Min(CHUNK_BYTES, |file|)
    ensures blob.row.None? ==> blob.Content() == []
    ensures blob.row.Some? && blob.row.value.complete ==> blob.Content() == file
  {
    if blob.row.Some? {
      JoinedLength(blob.chunks, |file|);
      assert blob.chunks == [] ==> blob.Content() == [];
    }
  }

  /** A sender that starts at the first chunk and goes on at the `received` of each answer
      finishes the upload of its file wherever an earlier one left it. Only a lack of
      quota or space stops it, and what it leaves then can be resumed again.
      `reserved` and `space` are what quota and disk answer to each chunk. */
  method UploadFile(blob: ArchiveBlob, file: Bytes, reserved: nat -> bool, space: nat -> bool)
    returns (r: Result<Receipt, BlobFailure>, sent: nat)
    requires PartOf(blob, file)
    modifies blob
    ensures PartOf(blob, file) && old(blob.Content()) <= blob.Content()
    ensures r.Ok? ==>
              r.value == Receipt(true, |file|) && blob.Content() == file && blob.row.Some? && blob.row.value.complete
    ensures r.Err? ==> r.error == Capacity && sent > 0 && (!reserved(sent - 1) || !space(sent - 1))
    ensures sent <= 2 + (|file| - |old(blob.Content())|) / CHUNK_BYTES
  {
    hide Contiguous, Joined;
    ghost var had := |blob.Content()|;
    var at := 0;
    sent := 0;
    while true
      invariant PartOf(blob, file) && old(blob.Content()) <= blob.Content()
      invariant at % CHUNK_BYTES == 0 && at <= |blob.Content()| && (at < |file| || |file| == 0)
      invariant sent == 0 <==> at == 0
      invariant at > 0 ==> at == |blob.Content()| && blob.row.Some? && !blob.row.value.complete
      invariant at > 0 ==> had + CHUNK_BYTES * (sent - 1) <= at
      decreases |file| - at
    {
      PartIsAligned(blob, file);
      var m := Min(CHUNK_BYTES, |file| - at);
      ghost var before := blob.Content();
      assert at == |before| ==> before + file[at..at + m] == file[..at + m];
      r := blob.Write(Sha(file), |file|, at, file[at..at + m], reserved(sent), space(sent));
      sent := sent + 1;
      if r.Err? { return; }
      PartIsAligned(blob, file);
      if r.value.complete { return; }
      at := r.value.received;
    }
  }

  /** Reading along `nextOffset` returns exactly the blob's bytes, the empty blob included. */
  method Download(blob: ArchiveBlob) returns (bytes: Bytes)
    requires blob.Valid() && blob.row.Some? && blob.row.value.complete
    ensures bytes == blob.Content() && blob.row.value.sha == Sha(bytes)
  {
    hide Contiguous, Joined;
    var sha, size := blob.row.value.sha, blob.row.value.size;
    var offset := Some(0);
    bytes := [];
    while offset.Some?
      invariant offset.Some? ==>
                  offset.value % CHUNK_BYTES == 0 && offset.value <= size && (offset.value < size || size == 0)
      invariant bytes == blob.Content()[..if offset.Some? then offset.value else size]
      decreases if offset.Some? then 1 + size - offset.value else 0
    {
      var r := blob.Read(sha, size, offset.value);
      bytes, offset := bytes + r.value.0, r.value.1;
    }
  }
}
