/** Files as chunk lists with a Merkle root: cutting, storing, and downloading again. */
module Files {
  import opened Ids
  import opened Chunks
  import opened Merkle
  import opened Readers
  import opened Sequences

  const DEFAULT_CHUNK_SIZE := 1048576

  datatype ChunkMeta = ChunkMeta(index: nat, id: ChunkId, size: nat)
  datatype FileMeta = FileMeta(root: ChunkId, chunks: seq<ChunkMeta>, size: nat)

  // ---------- cutting a byte string ----------

  function Blocks(data: Bytes, size: nat): (blocks: seq<Bytes>)
    requires size > 0
    decreases |data|
  {
    if data == [] then []
    else var n := Min(size, |data|); [data[..n]] + Blocks(data[n..], size)
  }

  /** The blocks join to the data; all but the last are full, none is empty, and there are ceil(n / size). */
  lemma {:induction false} BlocksShape(data: Bytes, size: nat)
    requires size > 0
    ensures var blocks := Blocks(data, size);
            && Flatten(blocks) == data
            && |blocks| == (|data| + size - 1) / size
            && (forall i :: 0 <= i < |blocks| ==> 0 < |blocks[i]| <= size)
            && (forall i :: 0 <= i < |blocks| - 1 ==> |blocks[i]| == size)
    decreases |data|
  {
    if data != [] {
      var n := Min(size, |data|);
      BlocksShape(data[n..], size);
      if n == size {
        CeilStep(|data|, size);
      } else {
        CeilOne(|data|, size);
      }
    }
  }

  lemma CeilStep(n: nat, size: nat)
    requires 0 < size <= n
    ensures (n + size - 1) / size == 1 + (n - size + size - 1) / size
  {
    var q, r := (n - 1) / size, (n - 1) % size;
    assert (q + 1) * size == q * size + size;
    DivisionIs(n + size - 1, size, q + 1, r);
  }

  lemma CeilOne(n: nat, size: nat)
    requires 0 < n < size
    ensures (n + size - 1) / size == 1 && (size - 1) / size == 0
  {
  }

  // ---------- metadata as a function of the bytes ----------

  function MetasOf(h: Hash, blocks: seq<Bytes>): (metas: seq<ChunkMeta>)
    ensures |metas| == |blocks|
    ensures forall i :: 0 <= i < |blocks| ==> metas[i] == ChunkMeta(i, h(blocks[i]), |blocks[i]|)
  {
    seq(|blocks|, i requires 0 <= i < |blocks| => ChunkMeta(i, h(blocks[i]), |blocks[i]|))
  }

  function ChunkIds(chunks: seq<ChunkMeta>): (ids: seq<ChunkId>)
    ensures |ids| == |chunks|
    ensures forall i :: 0 <= i < |chunks| ==> ids[i] == chunks[i].id
  {
    seq(|chunks|, i requires 0 <= i < |chunks| => chunks[i].id)
  }

  /** The metadata of a non-empty byte string cut with this chunk size. */
  function MetaOf(h: Hash, data: Bytes, size: nat): FileMeta
    requires size > 0 && data != []
  {
    var chunks := MetasOf(h, Blocks(data, size));
    FileMeta(TreeRoot(h, ChunkIds(chunks)), chunks, |data|)
  }

  /** What the metadata says: one entry for each block, in order, with its number, hash and size, the number of bytes,
      and the Merkle root of the hashes in this order. */
  ghost predicate Describes(h: Hash, data: Bytes, size: nat, file: FileMeta)
    requires size > 0
  {
    var blocks := Blocks(data, size);
    && file.size == |data| && |file.chunks| == |blocks|
    && (forall i :: 0 <= i < |blocks| ==> file.chunks[i] == ChunkMeta(i, h(blocks[i]), |blocks[i]|))
    && forall ids: seq<ChunkId> :: |ids| == |blocks| && (forall i :: 0 <= i < |ids| ==> ids[i] == h(blocks[i])) ==>
         IsRoot(h, ids, file.root)
  }

  lemma MetaDescribes(h: Hash, data: Bytes, size: nat)
    requires size > 0 && data != []
    ensures Describes(h, data, size, MetaOf(h, data, size))
  {
    var blocks, file := Blocks(data, size), MetaOf(h, data, size);
    forall ids: seq<ChunkId> | |ids| == |blocks| && forall i :: 0 <= i < |ids| ==> ids[i] == h(blocks[i])
      ensures IsRoot(h, ids, file.root)
    {
      assert ids == ChunkIds(file.chunks);
      TreeRootIsRoot(h, ids);
    }
  }

  // ---------- storing ----------

  lemma BlocksStep(data: Bytes, size: nat, buf: Bytes, rest: Bytes)
    requires size > 0 && data == buf + rest
    requires |buf| == size || (rest == [] && 0 < |buf| < size)
    ensures Blocks(data, size) == [buf] + Blocks(rest, size)
  {
    assert data[..|buf|] == buf && data[|buf|..] == rest;
  }

  lemma StoredOneMore(h: Hash, store: Store, blocks: seq<Bytes>, buf: Bytes)
    ensures PutAll(h, store, blocks + [buf]) == Put(h, PutAll(h, store, blocks), buf)
    ensures MetasOf(h, blocks + [buf]) == MetasOf(h, blocks) + [ChunkMeta(|blocks|, h(buf), |buf|)]
  {
    assert (blocks + [buf])[..|blocks|] == blocks;
  }

  /** An interrupted run has stored the first blocks and nothing else. */
  ghost predicate StoredSome(h: Hash, before: Store, blocks: seq<Bytes>, after: Store) {
    exists n :: 0 <= n <= |blocks| && after == PutAll(h, before, blocks[..n])
  }

  /** After n blocks: what has been stored, what metadata exists, and what is still to be read. */
  ghost predicate Progress(h: Hash, before: Store, all: seq<Bytes>, size: nat,
                           n: nat, chunks: seq<ChunkMeta>, after: Store, rest: Bytes)
    requires size > 0
  {
    && n <= |all| && Blocks(rest, size) == all[n..]
    && chunks == MetasOf(h, all[..n]) && after == PutAll(h, before, all[..n])
  }

  lemma ProgressStep(h: Hash, before: Store, all: seq<Bytes>, size: nat,
                     n: nat, chunks: seq<ChunkMeta>, after: Store, rest: Bytes, buf: Bytes, left: Bytes)
    requires size > 0 && Progress(h, before, all, size, n, chunks, after, rest)
    requires rest == buf + left && (|buf| == size || (left == [] && 0 < |buf| < size))
    ensures Progress(h, before, all, size, n + 1, chunks + [ChunkMeta(n, h(buf), |buf|)], Put(h, after, buf), left)
  {
    BlocksStep(rest, size, buf, left);
    StoredOneMore(h, before, all[..n], buf);
    assert all[n..][0] == buf && all[n..][1..] == all[n + 1..];
    assert all[..n + 1] == all[..n] + [buf];
  }

  lemma ProgressDone(h: Hash, before: Store, all: seq<Bytes>, size: nat, n: nat, chunks: seq<ChunkMeta>, after: Store)
    requires size > 0 && Progress(h, before, all, size, n, chunks, after, [])
    ensures chunks == MetasOf(h, all) && after == PutAll(h, before, all)
  {
    assert all[..n] == all;
  }

  /** Some read before the end of the data fails to fill its buffer because of an error. */
  predicate ReadsFail(rest: Bytes, plan: seq<Planned>, size: nat)
    requires size > 0
    decreases |rest|
  {
    var (buf, last, after) := FullDelivered(rest, plan, size);
    if |buf| < size then last == Failed else ReadsFail(rest[size..], after, size)
  }

  lemma {:induction false} ReadsFailOnlyUnreliably(rest: Bytes, plan: seq<Planned>, size: nat)
    requires size > 0 && ReadsFail(rest, plan, size)
    ensures !Reliable(plan)
    decreases |rest|
  {
    var (buf, last, after) := FullDelivered(rest, plan, size);
    FullDeliveredFacts(rest, plan, size);
    if |buf| == size {
      ReadsFailOnlyUnreliably(rest[size..], after, size);
    }
  }

  lemma ReadsFailStep(rest: Bytes, plan: seq<Planned>, size: nat, buf: Bytes, left: Bytes)
    requires size > 0 && FullDelivered(rest, plan, size).0 == buf && rest == buf + left
    ensures ReadsFail(rest, plan, size)
            == if |buf| == size then ReadsFail(left, FullDelivered(rest, plan, size).2, size)
               else FullDelivered(rest, plan, size).1 == Failed
  {
    assert |buf| == size ==> rest[size..] == left;
  }

  /** Where the storing loop stands: progress through the blocks without a failed put. */
  ghost predicate Storing(h: Hash, before: Store, failures: seq<bool>, all: seq<Bytes>, size: nat,
                          n: nat, chunks: seq<ChunkMeta>, after: Store, coming: seq<bool>, rest: Bytes)
    requires size > 0
  {
    && Progress(h, before, all, size, n, chunks, after, rest)
    && !PutsFail(h, before, failures, all[..n]) && coming == FailuresAfterAll(h, before, failures, all[..n])
  }

  lemma NextBlock(all: seq<Bytes>, size: nat, n: nat, rest: Bytes, buf: Bytes, left: Bytes)
    requires size > 0 && n <= |all| && Blocks(rest, size) == all[n..]
    requires rest == buf + left && (|buf| == size || (left == [] && 0 < |buf| < size))
    ensures n < |all| && all[n] == buf
  {
    BlocksStep(rest, size, buf, left);
    assert all[n..][0] == buf;
  }

  lemma StoringStep(h: Hash, before: Store, failures: seq<bool>, all: seq<Bytes>, size: nat,
                    n: nat, chunks: seq<ChunkMeta>, after: Store, coming: seq<bool>, rest: Bytes, buf: Bytes, left: Bytes)
    requires size > 0 && Storing(h, before, failures, all, size, n, chunks, after, coming, rest)
    requires rest == buf + left && (|buf| == size || (left == [] && 0 < |buf| < size))
    requires !PutFails(h, after, coming, buf)
    ensures Storing(h, before, failures, all, size, n + 1, chunks + [ChunkMeta(n, h(buf), |buf|)],
                    Put(h, after, buf), FailuresAfter(h, after, coming, buf), left)
  {
    NextBlock(all, size, n, rest, buf, left);
    ProgressStep(h, before, all, size, n, chunks, after, rest, buf, left);
    PutsFailStep(h, before, failures, all, n);
  }

  lemma StoringFails(h: Hash, before: Store, failures: seq<bool>, all: seq<Bytes>, size: nat,
                     n: nat, chunks: seq<ChunkMeta>, after: Store, coming: seq<bool>, rest: Bytes, buf: Bytes, left: Bytes)
    requires size > 0 && Storing(h, before, failures, all, size, n, chunks, after, coming, rest)
    requires rest == buf + left && (|buf| == size || (left == [] && 0 < |buf| < size))
    requires PutFails(h, after, coming, buf)
    ensures PutsFail(h, before, failures, all)
  {
    NextBlock(all, size, n, rest, buf, left);
    PutsFailStep(h, before, failures, all, n);
    PutsFailPrefix(h, before, failures, all, n + 1);
  }

  lemma StoringDone(h: Hash, before: Store, failures: seq<bool>, all: seq<Bytes>, size: nat,
                    n: nat, chunks: seq<ChunkMeta>, after: Store, coming: seq<bool>)
    requires size > 0 && Storing(h, before, failures, all, size, n, chunks, after, coming, [])
    ensures !PutsFail(h, before, failures, all) && chunks == MetasOf(h, all) && after == PutAll(h, before, all)
  {
    ProgressDone(h, before, all, size, n, chunks, after);
    assert all[..n] == all;
  }

  /** StoreFromReader: the result depends only on the bytes and the chunk size, not on how reads are split; it is an
      error exactly if a read or a put fails. */
  method StoreFromReader(store: ChunkStore?, r: Reader, chunkSize: int) returns (res: Result<seq<ChunkMeta>>)
    modifies if store == null then {r} else {store, r}
    ensures store == null || chunkSize <= 0 ==> res.Err?
    ensures store != null && chunkSize > 0 ==>
              (res.Err? <==> || ReadsFail(old(r.rest), old(r.plan), chunkSize)
                             || PutsFail(store.hash, old(store.chunks), old(store.failures), Blocks(old(r.rest), chunkSize)))
    ensures res.Ok? ==>
              && store != null && chunkSize > 0 && r.rest == []
              && res.value == MetasOf(store.hash, Blocks(old(r.rest), chunkSize))
              && store.chunks == PutAll(store.hash, old(store.chunks), Blocks(old(r.rest), chunkSize))
    ensures res.Err? && store != null && chunkSize > 0 ==>
              && (!Reliable(old(r.plan)) || true in old(store.failures))
              && StoredSome(store.hash, old(store.chunks), Blocks(old(r.rest), chunkSize), store.chunks)
  {
    if store == null {
      return Err("store is nil");
    }
    if chunkSize <= 0 {
      return Err("invalid chunkSize");
    }
    var chunks: seq<ChunkMeta> := [];
    var index := 0;
    ghost var before, failures, all := store.chunks, store.failures, Blocks(r.rest, chunkSize);
    ghost var fails := ReadsFail(r.rest, r.plan, chunkSize);
    FailuresShrink(store.hash, before, failures, all);
    if fails {
      ReadsFailOnlyUnreliably(r.rest, r.plan, chunkSize);
    }
    while true
      invariant Storing(store.hash, before, failures, all, chunkSize, index, chunks, store.chunks, store.failures, r.rest)
      invariant fails == ReadsFail(r.rest, r.plan, chunkSize)
      decreases |r.rest|
    {
      ghost var rest, plan, after, coming := r.rest, r.plan, store.chunks, store.failures;
      var buf, status := ReadFull(r, chunkSize);
      ReadsFailStep(rest, plan, chunkSize, buf, r.rest);
      if status == Broken {
        return Err("read error");
      }
      if status == NoMore {
        break;
      }
      var put := store.PutChunk(buf);
      if put.Err? {
        StoringFails(store.hash, before, failures, all, chunkSize, index, chunks, after, coming, rest, buf, r.rest);
        return Err("PutChunk");
      }
      StoringStep(store.hash, before, failures, all, chunkSize, index, chunks, after, coming, rest, buf, r.rest);
      chunks := chunks + [ChunkMeta(index, put.value, |buf|)];
      index := index + 1;
      if status == Partial {
        break;
      }
    }
    StoringDone(store.hash, before, failures, all, chunkSize, index, chunks, store.chunks, store.failures);
    return Ok(chunks);
  }

  /** BuildFileMetaFromReader. */
  method BuildFileMetaFromReader(store: ChunkStore?, r: Reader, size: int) returns (res: Result<FileMeta>)
    modifies if store == null then {r} else {store, r}
    ensures res.Ok? ==>
              && store != null && old(r.rest) != []
              && var chunkSize := if size <= 0 then DEFAULT_CHUNK_SIZE else size;
                 && res.value == MetaOf(store.hash, old(r.rest), chunkSize)
                 && Describes(store.hash, old(r.rest), chunkSize, res.value)
                 && store.chunks == PutAll(store.hash, old(store.chunks), Blocks(old(r.rest), chunkSize))
    ensures res.Err? ==> store == null || old(r.rest) == [] || !Reliable(old(r.plan)) || true in old(store.failures)
    ensures res.Err? <==> || store == null || old(r.rest) == []
                          || var chunkSize := if size <= 0 then DEFAULT_CHUNK_SIZE else size;
                             || ReadsFail(old(r.rest), old(r.plan), chunkSize)
                             || PutsFail(store.hash, old(store.chunks), old(store.failures), Blocks(old(r.rest), chunkSize))
  {
    if store == null {
      return Err("store is nil");
    }
    var chunkSize := if size <= 0 then DEFAULT_CHUNK_SIZE else size;
    ghost var data := r.rest;
    BlocksShape(data, chunkSize);
    var stored := StoreFromReader(store, r, chunkSize);
    if stored.Err? {
      return Err(stored.error);
    }
    var chunks := stored.value;
    if |chunks| == 0 {
      return Err("no data (empty file/reader)");
    }
    var ids, totalSize := IdsAndSize(chunks);
    SizesAddUp(store.hash, Blocks(data, chunkSize));
    MetaDescribes(store.hash, data, chunkSize);
    var root := MerkleRootForChunks(store.hash, ids);
    return Ok(FileMeta(root.value, chunks, totalSize));
  }

  function SumOfSizes(chunks: seq<ChunkMeta>): nat {
    if chunks == [] then 0 else SumOfSizes(chunks[..|chunks| - 1]) + chunks[|chunks| - 1].size
  }

  method IdsAndSize(chunks: seq<ChunkMeta>) returns (ids: seq<ChunkId>, totalSize: nat)
    ensures ids == ChunkIds(chunks) && totalSize == SumOfSizes(chunks)
  {
    ids, totalSize := [], 0;
    for i := 0 to |chunks|
      invariant |ids| == i && forall k :: 0 <= k < i ==> ids[k] == chunks[k].id
      invariant totalSize == SumOfSizes(chunks[..i])
    {
      assert chunks[..i + 1][..i] == chunks[..i];
      ids := ids + [chunks[i].id];
      totalSize := totalSize + chunks[i].size;
    }
    assert chunks[..|chunks|] == chunks && ids == ChunkIds(chunks);
  }

  lemma {:induction false} SizesAddUp(h: Hash, blocks: seq<Bytes>)
    ensures SumOfSizes(MetasOf(h, blocks)) == |Flatten(blocks)|
  {
    if blocks != [] {
      var front, last := blocks[..|blocks| - 1], blocks[|blocks| - 1];
      SizesAddUp(h, front);
      FlattenAppend(front, last);
      assert blocks == front + [last];
      assert MetasOf(h, blocks)[..|front|] == MetasOf(h, front);
    }
  }

  // ---------- equal roots bind the bytes ----------

  /** The first position where two lists of byte strings differ, as a pair. */
  function FirstDifference(a: seq<Bytes>, b: seq<Bytes>): (Bytes, Bytes)
    requires |a| == |b|
  {
    if a == [] then ([], []) else if a[0] != b[0] then (a[0], b[0]) else FirstDifference(a[1..], b[1..])
  }

  lemma {:induction false} DifferentBlocksCollide(h: Hash, a: seq<Bytes>, b: seq<Bytes>)
    requires |a| == |b| && a != b && forall i :: 0 <= i < |a| ==> h(a[i]) == h(b[i])
    ensures var (x, y) := FirstDifference(a, b); Collision(h, x, y)
  {
    assert a == [a[0]] + a[1..] && b == [b[0]] + b[1..];
    if a[0] == b[0] {
      DifferentBlocksCollide(h, a[1..], b[1..]);
    }
  }

  /** Two different byte strings with the same hash, computed from two files with equal roots. */
  function FindFileCollision(h: Hash, a: Bytes, b: Bytes, size: nat): (Bytes, Bytes)
    requires size > 0 && a != [] && b != [] && |Blocks(a, size)| == |Blocks(b, size)|
  {
    var ia, ib := ChunkIds(MetasOf(h, Blocks(a, size))), ChunkIds(MetasOf(h, Blocks(b, size)));
    if ia != ib then FindTreeCollision(h, ia, ib) else FirstDifference(Blocks(a, size), Blocks(b, size))
  }

  /** Files cut alike into the same number of chunks with equal roots are equal or give a collision. */
  lemma FileRootBinds(h: Hash, a: Bytes, b: Bytes, size: nat)
    requires size > 0 && a != [] && b != [] && a != b && |Blocks(a, size)| == |Blocks(b, size)|
    requires MetaOf(h, a, size).root == MetaOf(h, b, size).root
    ensures var (x, y) := FindFileCollision(h, a, b, size); Collision(h, x, y)
  {
    BlocksShape(a, size);
    BlocksShape(b, size);
    var ba, bb := Blocks(a, size), Blocks(b, size);
    var ia, ib := ChunkIds(MetasOf(h, ba)), ChunkIds(MetasOf(h, bb));
    if ia != ib {
      EqualRootsCollide(h, ia, ib);
    } else {
      assert forall i :: 0 <= i < |ba| ==> h(ba[i]) == ia[i] == ib[i] == h(bb[i]);
      DifferentBlocksCollide(h, ba, bb);
    }
  }

  // ---------- downloading ----------

  /** The answers that pass the download's only check: each present chunk hashes to the listed identifier. */
  ghost predicate Verified(h: Hash, chunks: seq<ChunkMeta>, answers: seq<Result<Bytes>>, n: nat)
    requires n <= |chunks| && n <= |answers|
  {
    forall i :: 0 <= i < n ==> answers[i].Ok? && h(answers[i].value) == chunks[i].id
  }

  function Values(answers: seq<Result<Bytes>>): (values: seq<Bytes>)
    requires forall i :: 0 <= i < |answers| ==> answers[i].Ok?
    ensures |values| == |answers|
    ensures forall i :: 0 <= i < |values| ==> values[i] == answers[i].value
  {
    seq(|answers|, i requires 0 <= i < |answers| => answers[i].value)
  }

  /** DownloadFileFromProvider. meta is the answer to GET_FILE_META, answers[i] the result of fetching
      chunk i, faults[i] how many bytes of chunk i a failing write still wrote. The Merkle root of the
      received metadata is not recomputed, and a size mismatch is only logged. */
  method Download(h: Hash, meta: Result<FileMeta>, createFails: bool, answers: seq<Result<Bytes>>, faults: seq<Option<nat>>)
    returns (res: Result<()>, file: Bytes)
    requires meta.Ok? ==> |answers| == |faults| == |meta.value.chunks|
    ensures res.Ok? <==> meta.Ok? && !createFails && Verified(h, meta.value.chunks, answers, |answers|)
                         && forall i :: 0 <= i < |faults| ==> faults[i].None?
    ensures res.Ok? ==> file == Flatten(Values(answers))
    ensures file != [] ==> meta.Ok? && exists n :: 0 <= n <= |answers| && Verified(h, meta.value.chunks, answers, n)
                                         && file <= Flatten(Values(answers[..n]))
  {
    file := [];
    if meta.Err? {
      return Err(meta.error), file;
    }
    if createFails {
      return Err("create dest"), file;
    }
    var chunks := meta.value.chunks;
    var written := 0;
    for i := 0 to |chunks|
      invariant Verified(h, chunks, answers, i) && forall k :: 0 <= k < i ==> faults[k].None?
      invariant file == Flatten(Values(answers[..i]))
    {
      if answers[i].Err? {
        return Err("FetchChunkRemote"), file;
      }
      var data := answers[i].value;
      if h(data) != chunks[i].id {
        return Err("hash mismatch"), file;
      }
      assert Values(answers[..i + 1]) == Values(answers[..i]) + [data];
      FlattenAppend(Values(answers[..i]), data);
      if faults[i].Some? {
        file := file + data[..Min(faults[i].value, |data|)];
        return Err("write"), file;
      }
      file := file + data;
      written := written + |data|;
    }
    assert answers[..|chunks|] == answers;
    return Ok(()), file;
  }

  /** A successful download against the metadata of some bytes restores them, or gives a collision. */
  lemma DownloadRestores(h: Hash, data: Bytes, size: nat, answers: seq<Result<Bytes>>)
    requires size > 0 && data != []
    requires var chunks := MetaOf(h, data, size).chunks;
             |answers| == |chunks| && Verified(h, chunks, answers, |answers|)
    ensures Flatten(Values(answers)) == data
            || var (x, y) := FirstDifference(Blocks(data, size), Values(answers)); Collision(h, x, y)
  {
    BlocksShape(data, size);
    var blocks := Blocks(data, size);
    if Values(answers) != blocks {
      DifferentBlocksCollide(h, blocks, Values(answers));
    }
  }
}
