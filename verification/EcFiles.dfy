/** Erasure-coded chunks and files over a content-addressed store. */
module EcFiles {
  import opened Ids
  import opened Chunks
  import opened Sequences
  import opened Readers
  import opened ReedSolomon
  import opened Erasure
  import Files

  datatype Layout = Layout(params: ECParams, shardIds: seq<ChunkId>, origSize: int)
  datatype ECChunkMeta = ECChunkMeta(index: nat, layout: Layout)
  datatype ECFileMeta = ECFileMeta(name: string, size: nat, chunkSize: int, params: ECParams, chunks: seq<ECChunkMeta>)

  function HashAll(h: Hash, blocks: seq<Bytes>): (ids: seq<ChunkId>)
    ensures |ids| == |blocks|
    ensures forall i :: 0 <= i < |blocks| ==> ids[i] == h(blocks[i])
  {
    seq(|blocks|, i requires 0 <= i < |blocks| => h(blocks[i]))
  }

  function LayoutOf(h: Hash, lib: Library, data: Bytes, params: ECParams): Layout
    requires params.Valid()
  {
    Layout(params, HashAll(h, FullShards(lib, data, params)), |data|)
  }

  // ---------- one chunk ----------

  /** Stores every shard under its hash, in order; equal shards share one identifier. */
  method StoreShards(store: ChunkStore, shards: seq<Bytes>) returns (r: Result<seq<ChunkId>>)
    modifies store
    ensures r.Ok? ==> r.value == HashAll(store.hash, shards)
                      && store.chunks == PutAll(store.hash, old(store.chunks), shards)
    ensures r.Err? <==> PutsFail(store.hash, old(store.chunks), old(store.failures), shards)
    ensures r.Ok? ==> store.failures == FailuresAfterAll(store.hash, old(store.chunks), old(store.failures), shards)
    ensures r.Err? || true in store.failures ==> true in old(store.failures)
  {
    var shardIds: seq<ChunkId> := [];
    ghost var before, failures := store.chunks, store.failures;
    for i := 0 to |shards|
      invariant |shardIds| == i && forall k :: 0 <= k < i ==> shardIds[k] == store.hash(shards[k])
      invariant store.chunks == PutAll(store.hash, before, shards[..i])
      invariant !PutsFail(store.hash, before, failures, shards[..i])
      invariant store.failures == FailuresAfterAll(store.hash, before, failures, shards[..i])
      invariant true in store.failures ==> true in failures
    {
      assert shards[..i + 1][..i] == shards[..i];
      PutsFailStep(store.hash, before, failures, shards, i);
      var put := store.PutChunk(shards[i]);
      if put.Err? {
        PutsFailPrefix(store.hash, before, failures, shards, i + 1);
        return Err("PutChunk shard");
      }
      shardIds := shardIds + [put.value];
    }
    assert shards[..|shards|] == shards;
    return Ok(shardIds);
  }

  /** EncodeChunkWithEC. */
  method EncodeChunkWithEC(lib: Library, store: ChunkStore?, data: Bytes, params: ECParams) returns (r: Result<Layout>)
    requires Trusted(lib, params)
    modifies if store == null then {} else {store}
    ensures r.Ok? ==>
              && store != null && params.Valid()
              && r.value == LayoutOf(store.hash, lib, data, params)
              && store.chunks == PutAll(store.hash, old(store.chunks), FullShards(lib, data, params))
    ensures r.Err? <==> || store == null || !params.Valid()
                        || PutsFail(store.hash, old(store.chunks), old(store.failures), FullShards(lib, data, params))
    ensures r.Err? ==> store == null || !params.Valid() || true in old(store.failures)
    ensures r.Ok? ==> store.failures
                      == FailuresAfterAll(store.hash, old(store.chunks), old(store.failures), FullShards(lib, data, params))
    ensures store != null && true in store.failures ==> true in old(store.failures)
  {
    if store == null {
      return Err("store is nil");
    }
    var encoded := EncodeToShards(lib, data, params);
    if encoded.Err? {
      return Err(encoded.error);
    }
    FailuresShrink(store.hash, store.chunks, store.failures, encoded.value);
    var stored := StoreShards(store, encoded.value);
    if stored.Err? {
      return Err(stored.error);
    }
    return Ok(Layout(params, stored.value, |data|));
  }

  /** What GetChunk gives for each position of a layout. */
  function Loaded(store: Store, ids: seq<ChunkId>): (shards: seq<Option<Bytes>>)
    ensures |shards| == |ids|
    ensures forall i :: 0 <= i < |ids| ==> shards[i] == if ids[i] in store then Some(store[ids[i]]) else None
  {
    seq(|ids|, i requires 0 <= i < |ids| => if ids[i] in store then Some(store[ids[i]]) else None)
  }

  /** At least dataShards positions load, and every position that loads has the bytes that were stored. */
  ghost predicate Recoverable(h: Hash, lib: Library, store: Store, data: Bytes, params: ECParams)
    requires params.Valid()
  {
    Sufficient(lib, data, params, Loaded(store, HashAll(h, FullShards(lib, data, params))))
  }

  /** At least dataShards positions of a layout of some bytes load. */
  ghost predicate EnoughLoad(store: Store, layout: Layout) {
    layout.origSize > 0 ==> Present(Loaded(store, layout.shardIds)) >= layout.params.dataShards
  }

  /** DecodeChunkWithEC: shards that do not load count as missing. */
  method DecodeChunkWithEC(lib: Library, store: ChunkStore?, layout: Layout) returns (r: Result<Bytes>)
    requires Trusted(lib, layout.params)
    ensures store == null || !layout.params.Valid() || |layout.shardIds| != layout.params.TotalShards() ==> r.Err?
    ensures store != null && r.Ok? ==> EnoughLoad(store.chunks, layout)
    ensures store != null && layout.params.Valid() && |layout.shardIds| == layout.params.TotalShards() ==>
              Restores(lib, layout.params, Loaded(store.chunks, layout.shardIds), layout.origSize, r)
  {
    if store == null {
      return Err("store is nil");
    }
    if !layout.params.Valid() {
      return Err("invalid params");
    }
    if |layout.shardIds| != layout.params.TotalShards() {
      return Err("wrong number of shard IDs");
    }
    var shards := new Option<Bytes>[|layout.shardIds|](_ => None);
    for i := 0 to |layout.shardIds|
      invariant shards[..i] == Loaded(store.chunks, layout.shardIds)[..i]
      invariant forall j :: i <= j < shards.Length ==> shards[j].None?
    {
      var got := store.GetChunk(layout.shardIds[i]);
      if got.Ok? {
        shards[i] := Some(got.value);
      }
      assert shards[..i + 1] == shards[..i] + [shards[i]];
    }
    assert shards[..] == shards[..shards.Length] == Loaded(store.chunks, layout.shardIds);
    r := ReconstructFromShards(lib, shards, layout.params, layout.origSize);
  }

  // ---------- whole files ----------

  function ChunkMetas(h: Hash, lib: Library, pieces: seq<Bytes>, params: ECParams): (metas: seq<ECChunkMeta>)
    requires params.Valid()
    ensures |metas| == |pieces|
    ensures forall i :: 0 <= i < |pieces| ==> metas[i] == ECChunkMeta(i, LayoutOf(h, lib, pieces[i], params))
  {
    seq(|pieces|, i requires 0 <= i < |pieces| => ECChunkMeta(i, LayoutOf(h, lib, pieces[i], params)))
  }

  /** The metadata of a file that the reader delivered in these pieces. */
  function ECMetaOf(h: Hash, lib: Library, name: string, pieces: seq<Bytes>, chunkSize: int, params: ECParams): ECFileMeta
    requires params.Valid()
  {
    ECFileMeta(name, |Flatten(pieces)|, chunkSize, params, ChunkMetas(h, lib, pieces, params))
  }

  function AllShards(lib: Library, pieces: seq<Bytes>, params: ECParams): seq<Bytes>
    requires params.Valid()
  {
    if pieces == [] then []
    else AllShards(lib, pieces[..|pieces| - 1], params) + FullShards(lib, pieces[|pieces| - 1], params)
  }

  lemma {:induction false} PutAllAppend(h: Hash, store: Store, a: seq<Bytes>, b: seq<Bytes>)
    ensures PutAll(h, store, a + b) == PutAll(h, PutAll(h, store, a), b)
  {
    if b == [] {
      assert a + b == a;
    } else {
      PutAllAppend(h, store, a, b[..|b| - 1]);
      assert (a + b)[..|a + b| - 1] == a + b[..|b| - 1];
    }
  }

  ghost predicate GoodPieces(pieces: seq<Bytes>, chunkSize: int) {
    forall i :: 0 <= i < |pieces| ==> 0 < |pieces[i]| <= chunkSize
  }

  /** The pieces in which this reader delivers its bytes to a buffer of chunkSize: every read that is not empty is one
      piece, up to and including the read that reports EOF or fails. */
  function Cut(rest: Bytes, plan: seq<Planned>, chunkSize: nat): seq<Bytes>
    requires chunkSize > 0
    decreases |plan|, |rest|
  {
    var (data, status, after) := Delivered(rest, plan, chunkSize);
    (if data == [] then [] else [data]) + (if status == Quiet then Cut(rest[|data|..], after, chunkSize) else [])
  }

  /** One of these reads reports an error. */
  predicate CutFails(rest: Bytes, plan: seq<Planned>, chunkSize: nat)
    requires chunkSize > 0
    decreases |plan|, |rest|
  {
    var (data, status, after) := Delivered(rest, plan, chunkSize);
    if status == Quiet then CutFails(rest[|data|..], after, chunkSize) else status == Failed
  }

  lemma {:induction false} CutFailsOnlyUnreliably(rest: Bytes, plan: seq<Planned>, chunkSize: nat)
    requires chunkSize > 0 && CutFails(rest, plan, chunkSize)
    ensures !Reliable(plan)
    decreases |plan|, |rest|
  {
    var (data, status, after) := Delivered(rest, plan, chunkSize);
    DeliveredFacts(rest, plan, chunkSize);
    if status == Quiet {
      CutFailsOnlyUnreliably(rest[|data|..], after, chunkSize);
    }
  }

  lemma CutStep(pieces: seq<Bytes>, rest: Bytes, plan: seq<Planned>, chunkSize: nat, data: Bytes, status: Status,
                after: seq<Planned>, left: Bytes)
    requires chunkSize > 0 && (data, status, after) == Delivered(rest, plan, chunkSize) && rest == data + left
    ensures pieces + Cut(rest, plan, chunkSize)
            == (if data == [] then pieces else pieces + [data]) + (if status == Quiet then Cut(left, after, chunkSize) else [])
  {
    assert rest[|data|..] == left;
    var tail := if status == Quiet then Cut(left, after, chunkSize) else [];
    assert Cut(rest, plan, chunkSize) == (if data == [] then [] else [data]) + tail;
    assert pieces + ([data] + tail) == (pieces + [data]) + tail;
    assert pieces + ([] + tail) == pieces + tail;
  }

  /** A reader that always fills the buffer is cut like a stored file: full blocks and a last shorter one. */
  lemma {:induction false} PlainCutIsBlocks(data: Bytes, chunkSize: nat)
    requires chunkSize > 0
    ensures Cut(data, [], chunkSize) == Files.Blocks(data, chunkSize)
    decreases |data|
  {
    if data != [] {
      PlainCutIsBlocks(data[Min(chunkSize, |data|)..], chunkSize);
    }
  }

  /** What was read in these pieces and what is left. */
  ghost predicate Split(data: Bytes, chunkSize: int, pieces: seq<Bytes>, size: int, rest: Bytes) {
    data == Flatten(pieces) + rest && size == |Flatten(pieces)| && GoodPieces(pieces, chunkSize)
  }

  lemma SplitStep(data: Bytes, chunkSize: int, pieces: seq<Bytes>, size: int, piece: Bytes, rest: Bytes)
    requires 0 < |piece| <= chunkSize && Split(data, chunkSize, pieces, size, piece + rest)
    ensures Split(data, chunkSize, pieces + [piece], size + |piece|, rest)
  {
    FlattenAppend(pieces, piece);
    assert data == Flatten(pieces + [piece]) + rest;
  }

  /** What was stored for these pieces and which metadata exists. */
  ghost predicate Encoded(h: Hash, lib: Library, before: Store, params: ECParams,
                          pieces: seq<Bytes>, metas: seq<ECChunkMeta>, after: Store)
    requires params.Valid()
  {
    metas == ChunkMetas(h, lib, pieces, params) && after == PutAll(h, before, AllShards(lib, pieces, params))
  }

  lemma ChunkMetasStep(h: Hash, lib: Library, pieces: seq<Bytes>, params: ECParams, piece: Bytes)
    requires params.Valid()
    ensures ChunkMetas(h, lib, pieces + [piece], params)
            == ChunkMetas(h, lib, pieces, params) + [ECChunkMeta(|pieces|, LayoutOf(h, lib, piece, params))]
  {
    var a, b := ChunkMetas(h, lib, pieces + [piece], params), ChunkMetas(h, lib, pieces, params);
    assert forall i :: 0 <= i < |pieces| ==> a[i] == b[i];
  }

  lemma AllShardsStep(h: Hash, lib: Library, before: Store, pieces: seq<Bytes>, params: ECParams, piece: Bytes)
    requires params.Valid()
    ensures PutAll(h, before, AllShards(lib, pieces + [piece], params))
            == PutAll(h, PutAll(h, before, AllShards(lib, pieces, params)), FullShards(lib, piece, params))
  {
    assert (pieces + [piece])[..|pieces|] == pieces;
    PutAllAppend(h, before, AllShards(lib, pieces, params), FullShards(lib, piece, params));
  }

  lemma EncodedStep(h: Hash, lib: Library, before: Store, params: ECParams,
                    pieces: seq<Bytes>, metas: seq<ECChunkMeta>, after: Store, piece: Bytes)
    requires params.Valid() && Encoded(h, lib, before, params, pieces, metas, after)
    ensures Encoded(h, lib, before, params, pieces + [piece],
                    metas + [ECChunkMeta(|pieces|, LayoutOf(h, lib, piece, params))],
                    PutAll(h, after, FullShards(lib, piece, params)))
  {
    ChunkMetasStep(h, lib, pieces, params, piece);
    AllShardsStep(h, lib, before, pieces, params, piece);
  }

  lemma {:induction false} PutsFailAppend(h: Hash, store: Store, failures: seq<bool>, a: seq<Bytes>, b: seq<Bytes>)
    ensures PutsFail(h, store, failures, a + b)
            <==> || PutsFail(h, store, failures, a)
                 || PutsFail(h, PutAll(h, store, a), FailuresAfterAll(h, store, failures, a), b)
    ensures FailuresAfterAll(h, store, failures, a + b)
            == FailuresAfterAll(h, PutAll(h, store, a), FailuresAfterAll(h, store, failures, a), b)
  {
    if b == [] {
      assert a + b == a;
    } else {
      var front := b[..|b| - 1];
      PutsFailAppend(h, store, failures, a, front);
      PutAllAppend(h, store, a, front);
      assert (a + b)[..|a + b| - 1] == a + front;
    }
  }

  /** The shards of these pieces were all put, and these are the writes to come. */
  ghost predicate AllPut(h: Hash, lib: Library, before: Store, failures: seq<bool>, params: ECParams,
                         pieces: seq<Bytes>, coming: seq<bool>)
    requires params.Valid()
  {
    var shards := AllShards(lib, pieces, params);
    !PutsFail(h, before, failures, shards) && coming == FailuresAfterAll(h, before, failures, shards)
  }

  /** A put of these pieces fails exactly if one did before or one of the last piece does. */
  lemma PieceFails(h: Hash, lib: Library, before: Store, failures: seq<bool>, params: ECParams, pieces: seq<Bytes>, piece: Bytes)
    requires params.Valid()
    ensures var shards := AllShards(lib, pieces, params);
            var after, coming := PutAll(h, before, shards), FailuresAfterAll(h, before, failures, shards);
            && (PutsFail(h, before, failures, AllShards(lib, pieces + [piece], params))
                <==> PutsFail(h, before, failures, shards) || PutsFail(h, after, coming, FullShards(lib, piece, params)))
            && FailuresAfterAll(h, before, failures, AllShards(lib, pieces + [piece], params))
               == FailuresAfterAll(h, after, coming, FullShards(lib, piece, params))
  {
    assert (pieces + [piece])[..|pieces|] == pieces;
    PutsFailAppend(h, before, failures, AllShards(lib, pieces, params), FullShards(lib, piece, params));
  }

  lemma FrontAndLast(a: seq<Bytes>, b: seq<Bytes>)
    requires b != []
    ensures a + b == (a + b[..|b| - 1]) + [b[|b| - 1]]
  {
  }

  lemma {:induction false} EarlyPieceFails(h: Hash, lib: Library, before: Store, failures: seq<bool>, params: ECParams,
                                           a: seq<Bytes>, b: seq<Bytes>)
    requires params.Valid() && PutsFail(h, before, failures, AllShards(lib, a, params))
    ensures PutsFail(h, before, failures, AllShards(lib, a + b, params))
  {
    if b == [] {
      assert a + b == a;
    } else {
      var front := b[..|b| - 1];
      EarlyPieceFails(h, lib, before, failures, params, a, front);
      PieceFails(h, lib, before, failures, params, a + front, b[|b| - 1]);
      FrontAndLast(a, b);
    }
  }

  /** Encodes and stores what one read delivered, if anything, and appends its entry to the metadata. */
  method AppendPiece(lib: Library, store: ChunkStore, params: ECParams, chunks: seq<ECChunkMeta>, chunk: Bytes,
                     ghost before: Store, ghost failures: seq<bool>, ghost pieces: seq<Bytes>)
    returns (r: Result<seq<ECChunkMeta>>)
    requires params.Valid() && Trusted(lib, params) && Encoded(store.hash, lib, before, params, pieces, chunks, store.chunks)
    requires AllPut(store.hash, lib, before, failures, params, pieces, store.failures)
    modifies store
    ensures r.Ok? ==> Encoded(store.hash, lib, before, params, if chunk == [] then pieces else pieces + [chunk],
                              r.value, store.chunks)
    ensures r.Ok? ==> AllPut(store.hash, lib, before, failures, params, if chunk == [] then pieces else pieces + [chunk],
                             store.failures)
    ensures r.Err? ==> chunk != [] && PutsFail(store.hash, before, failures, AllShards(lib, pieces + [chunk], params))
  {
    if |chunk| == 0 {
      return Ok(chunks);
    }
    ghost var after := store.chunks;
    PieceFails(store.hash, lib, before, failures, params, pieces, chunk);
    var layout := EncodeChunkWithEC(lib, store, chunk, params);
    if layout.Err? {
      return Err(layout.error);
    }
    EncodedStep(store.hash, lib, before, params, pieces, chunks, after, chunk);
    return Ok(chunks + [ECChunkMeta(|chunks|, layout.value)]);
  }

  /** One read, with the split of the data that it leads to. */
  method ReadPiece(r: Reader, chunkSize: nat, ghost data: Bytes, ghost pieces: seq<Bytes>, size: nat)
    returns (chunk: Bytes, status: Status, newSize: nat, ghost newPieces: seq<Bytes>)
    requires chunkSize > 0 && Split(data, chunkSize, pieces, size, r.rest)
    modifies r
    ensures newPieces == (if chunk == [] then pieces else pieces + [chunk])
    ensures pieces + Cut(old(r.rest), old(r.plan), chunkSize)
            == newPieces + (if status == Quiet then Cut(r.rest, r.plan, chunkSize) else [])
    ensures CutFails(old(r.rest), old(r.plan), chunkSize)
            == if status == Quiet then CutFails(r.rest, r.plan, chunkSize) else status == Failed
    ensures Split(data, chunkSize, newPieces, newSize, r.rest)
    ensures status == Eof ==> r.rest == []
    ensures status == Failed ==> !Reliable(old(r.plan))
    ensures Reliable(old(r.plan)) ==> Reliable(r.plan)
    ensures status == Quiet ==> |r.plan| < |old(r.plan)| || (|r.plan| == |old(r.plan)| && |r.rest| < |old(r.rest)|)
  {
    ghost var left, plan := r.rest, r.plan;
    chunk, status := r.Read(chunkSize);
    CutStep(pieces, left, plan, chunkSize, chunk, status, r.plan, r.rest);
    assert left == chunk + r.rest && left[|chunk|..] == r.rest;
    newSize := size + |chunk|;
    newPieces := if chunk == [] then pieces else pieces + [chunk];
    if chunk != [] {
      SplitStep(data, chunkSize, pieces, size, chunk, r.rest);
    } else {
      assert left == r.rest;
    }
  }

  /** The read loop: every non-empty read becomes one chunk, also when EOF or an error comes with it. */
  method EncodeReads(lib: Library, store: ChunkStore, r: Reader, chunkSize: nat, params: ECParams)
    returns (res: Result<seq<ECChunkMeta>>, size: nat, ghost pieces: seq<Bytes>)
    requires chunkSize > 0 && params.Valid() && Trusted(lib, params)
    modifies store, r
    ensures res.Ok? ==> pieces == Cut(old(r.rest), old(r.plan), chunkSize)
    ensures res.Ok? ==> Split(old(r.rest), chunkSize, pieces, size, [])
                        && Encoded(store.hash, lib, old(store.chunks), params, pieces, res.value, store.chunks)
    ensures res.Err? <==> || CutFails(old(r.rest), old(r.plan), chunkSize)
                          || PutsFail(store.hash, old(store.chunks), old(store.failures),
                                      AllShards(lib, Cut(old(r.rest), old(r.plan), chunkSize), params))
  {
    var chunks: seq<ECChunkMeta> := [];
    size, pieces := 0, [];
    ghost var before, failures, data := store.chunks, store.failures, r.rest;
    ghost var all, fails := Cut(r.rest, r.plan, chunkSize), CutFails(r.rest, r.plan, chunkSize);
    while true
      invariant Split(data, chunkSize, pieces, size, r.rest)
      invariant all == pieces + Cut(r.rest, r.plan, chunkSize)
      invariant fails == CutFails(r.rest, r.plan, chunkSize)
      invariant Encoded(store.hash, lib, before, params, pieces, chunks, store.chunks)
      invariant AllPut(store.hash, lib, before, failures, params, pieces, store.failures)
      decreases |r.plan|, |r.rest|
    {
      var chunk, status;
      ghost var earlier := pieces;
      chunk, status, size, pieces := ReadPiece(r, chunkSize, data, pieces, size);
      var more := AppendPiece(lib, store, params, chunks, chunk, before, failures, earlier);
      if more.Err? {
        EarlyPieceFails(store.hash, lib, before, failures, params, pieces,
                        if status == Quiet then Cut(r.rest, r.plan, chunkSize) else []);
        return Err(more.error), size, pieces;
      }
      chunks := more.value;
      if status == Eof {
        break;
      }
      if status == Failed {
        return Err("read error"), size, pieces;
      }
    }
    return Ok(chunks), size, pieces;
  }

  /** BuildECFileMetaFromReader: one chunk per non-empty read. pieces records how the reader split the bytes. */
  method BuildECFileMetaFromReader(lib: Library, store: ChunkStore?, name: string, r: Reader, chunkSize: int, params: ECParams)
    returns (res: Result<ECFileMeta>, ghost pieces: seq<Bytes>)
    requires Trusted(lib, params)
    modifies if store == null then {r} else {store, r}
    ensures store == null || chunkSize <= 0 || !params.Valid() ==> res.Err?
    ensures res.Ok? ==>
              && store != null && chunkSize > 0 && params.Valid()
              && pieces == Cut(old(r.rest), old(r.plan), chunkSize)
              && Flatten(pieces) == old(r.rest) && GoodPieces(pieces, chunkSize)
              && res.value.name == name && res.value.size == |old(r.rest)|
              && res.value.chunkSize == chunkSize && res.value.params == params
              && (old(r.plan) == [] ==> pieces == Files.Blocks(old(r.rest), chunkSize))
              && res.value == ECMetaOf(store.hash, lib, name, pieces, chunkSize, params)
              && store.chunks == PutAll(store.hash, old(store.chunks), AllShards(lib, pieces, params))
    ensures res.Err? <==> || store == null || chunkSize <= 0 || !params.Valid()
                          || CutFails(old(r.rest), old(r.plan), chunkSize)
                          || PutsFail(store.hash, old(store.chunks), old(store.failures),
                                      AllShards(lib, Cut(old(r.rest), old(r.plan), chunkSize), params))
    ensures res.Err? && store != null && chunkSize > 0 && params.Valid() ==>
              !Reliable(old(r.plan)) || true in old(store.failures)
  {
    pieces := [];
    if store == null {
      return Err("store is nil"), pieces;
    }
    if chunkSize <= 0 {
      return Err("invalid chunkSize"), pieces;
    }
    if !params.Valid() {
      return Err("invalid EC params"), pieces;
    }
    PlainCutIsBlocks(r.rest, chunkSize);
    if CutFails(r.rest, r.plan, chunkSize) {
      CutFailsOnlyUnreliably(r.rest, r.plan, chunkSize);
    }
    FailuresShrink(store.hash, store.chunks, store.failures, AllShards(lib, Cut(r.rest, r.plan, chunkSize), params));
    var read, size, all := EncodeReads(lib, store, r, chunkSize, params);
    pieces := all;
    if read.Err? {
      return Err(read.error), pieces;
    }
    return Ok(ECFileMeta(name, size, chunkSize, params, read.value)), pieces;
  }

  /** Every chunk of the file can be put together from what the store still has. */
  ghost predicate FileRecoverable(h: Hash, lib: Library, store: Store, pieces: seq<Bytes>, params: ECParams)
    requires params.Valid()
  {
    forall i :: 0 <= i < |pieces| ==> Recoverable(h, lib, store, pieces[i], params)
  }

  lemma LayoutShape(h: Hash, lib: Library, data: Bytes, params: ECParams)
    requires params.Valid() && Trusted(lib, params)
    ensures |LayoutOf(h, lib, data, params).shardIds| == params.TotalShards()
  {
    if data != [] {
      FullShardsShape(lib, data, params);
    }
  }

  /** The metadata describes these pieces, and all of them are recoverable. */
  ghost predicate Intact(h: Hash, lib: Library, store: Store, meta: ECFileMeta, pieces: seq<Bytes>) {
    && meta.params.Valid() && meta.chunks == ChunkMetas(h, lib, pieces, meta.params)
    && FileRecoverable(h, lib, store, pieces, meta.params)
  }

  lemma IntactChunk(h: Hash, lib: Library, store: Store, meta: ECFileMeta, pieces: seq<Bytes>, i: nat)
    requires Trusted(lib, meta.params) && Intact(h, lib, store, meta, pieces) && i < |meta.chunks|
    ensures |pieces| == |meta.chunks| && meta.chunks[i].layout == LayoutOf(h, lib, pieces[i], meta.params)
    ensures |meta.chunks[i].layout.shardIds| == meta.params.TotalShards()
    ensures Recoverable(h, lib, store, pieces[i], meta.params)
  {
    LayoutShape(h, lib, pieces[i], meta.params);
  }

  lemma FlattenOneMore(pieces: seq<Bytes>, i: nat)
    requires i < |pieces|
    ensures Flatten(pieces[..i + 1]) == Flatten(pieces[..i]) + pieces[i]
  {
    FlattenAppend(pieces[..i], pieces[i]);
    assert pieces[..i + 1] == pieces[..i] + [pieces[i]];
  }

  /** The library is trusted for the parameters of every layout. */
  ghost predicate TrustedFor(lib: Library, meta: ECFileMeta) {
    Trusted(lib, meta.params) && forall i :: 0 <= i < |meta.chunks| ==> Trusted(lib, meta.chunks[i].layout.params)
  }

  /** Decodes chunk i and appends it to what was written so far. */
  method DecodeNth(lib: Library, store: ChunkStore, meta: ECFileMeta, i: nat, out: Bytes, ghost pieces: seq<Bytes>)
    returns (r: Result<Bytes>)
    requires TrustedFor(lib, meta) && i < |meta.chunks|
    ensures r.Ok? ==> EnoughLoad(store.chunks, meta.chunks[i].layout)
    ensures Intact(store.hash, lib, store.chunks, meta, pieces) ==>
              |pieces| == |meta.chunks| && r.Ok? && (out == Flatten(pieces[..i]) ==> r.value == Flatten(pieces[..i + 1]))
  {
    var chunk := DecodeChunkWithEC(lib, store, meta.chunks[i].layout);
    if Intact(store.hash, lib, store.chunks, meta, pieces) {
      IntactChunk(store.hash, lib, store.chunks, meta, pieces, i);
      FlattenOneMore(pieces, i);
    }
    if chunk.Err? {
      return chunk;
    }
    return Ok(out + chunk.value);
  }

  /** The chunk loop of a reconstruction. */
  method DecodeAll(lib: Library, store: ChunkStore, meta: ECFileMeta, failing: seq<bool>, ghost pieces: seq<Bytes>)
    returns (res: Result<()>, out: Bytes)
    requires TrustedFor(lib, meta) && |failing| == |meta.chunks|
    ensures res.Ok? ==> forall i :: 0 <= i < |meta.chunks| ==> EnoughLoad(store.chunks, meta.chunks[i].layout)
    ensures Intact(store.hash, lib, store.chunks, meta, pieces) && true !in failing ==>
              res.Ok? && out == Flatten(pieces[..Min(|pieces|, |meta.chunks|)])
    ensures res.Ok? ==> true !in failing
  {
    out := [];
    ghost var intact := Intact(store.hash, lib, store.chunks, meta, pieces);
    for i := 0 to |meta.chunks|
      invariant forall j :: 0 <= j < i ==> !failing[j] && EnoughLoad(store.chunks, meta.chunks[j].layout)
      invariant intact ==> out == Flatten(pieces[..Min(|pieces|, i)])
    {
      var more := DecodeNth(lib, store, meta, i, out, pieces);
      if more.Err? {
        return Err(more.error), out;
      }
      if failing[i] {
        return Err("write"), out;
      }
      out := more.value;
    }
    return Ok(()), out;
  }

  /** ReconstructFileFromECMeta, writing to out; failing[i] says whether the write of chunk i fails.
      Whatever pieces the metadata was made from, their bytes come back if every chunk is recoverable. */
  method ReconstructFileFromECMeta(lib: Library, store: ChunkStore?, meta: ECFileMeta, failing: seq<bool>,
                                   ghost pieces: seq<Bytes>)
    returns (res: Result<()>, out: Bytes)
    requires TrustedFor(lib, meta) && |failing| == |meta.chunks|
    ensures store == null || !meta.params.Valid() ==> res.Err? && out == []
    ensures store != null && Intact(store.hash, lib, store.chunks, meta, pieces) && true !in failing ==>
              res.Ok? && out == Flatten(pieces)
    ensures res.Ok? ==> true !in failing
    ensures res.Ok? ==> store != null && forall i :: 0 <= i < |meta.chunks| ==> EnoughLoad(store.chunks, meta.chunks[i].layout)
  {
    if store == null {
      return Err("store is nil"), [];
    }
    if !meta.params.Valid() {
      return Err("invalid EC params"), [];
    }
    res, out := DecodeAll(lib, store, meta, failing, pieces);
    assert pieces[..|pieces|] == pieces;
  }

  // ---------- when is a chunk recoverable? ----------

  /** The number of positions of a layout whose identifier was not lost; equal shards count once per position. */
  function Surviving(ids: seq<ChunkId>, lost: set<ChunkId>): nat {
    if ids == [] then 0 else (if ids[0] in lost then 0 else 1) + Surviving(ids[1..], lost)
  }

  /** It is the number of positions whose identifier is not lost. */
  lemma {:induction false} SurvivingCounts(ids: seq<ChunkId>, lost: set<ChunkId>, n: nat)
    requires n <= |ids|
    ensures Surviving(ids[|ids| - n..], lost) == |set i: nat | |ids| - n <= i < |ids| && ids[i] !in lost|
    decreases n
  {
    var now := set i: nat | |ids| - n <= i < |ids| && ids[i] !in lost;
    if n == 0 {
      assert now == {};
    } else {
      SurvivingCounts(ids, lost, n - 1);
      var at: nat := |ids| - n;
      var rest := set i: nat | at + 1 <= i < |ids| && ids[i] !in lost;
      assert ids[at..][1..] == ids[at + 1..];
      assert now == if ids[at] !in lost then rest + {at} else rest;
    }
  }

  lemma {:induction false} SurvivingArePresent(store: Store, ids: seq<ChunkId>, lost: set<ChunkId>)
    requires forall i :: 0 <= i < |ids| ==> ids[i] in store
    ensures Present(Loaded(store - lost, ids)) == Surviving(ids, lost)
  {
    if ids != [] {
      SurvivingArePresent(store, ids[1..], lost);
      assert Loaded(store - lost, ids)[1..] == Loaded(store - lost, ids[1..]);
    }
  }

  /** Some stored bytes take the place of this shard: their hashes are equal, the bytes are not. */
  ghost predicate Clash(h: Hash, store: Store, shard: Bytes) {
    h(shard) in store && Collision(h, store[h(shard)], shard)
  }

  /** The store has the identifiers of all shards of this data, and none of them clashes. */
  ghost predicate HoldsShardsOf(h: Hash, lib: Library, store: Store, data: Bytes, params: ECParams)
    requires params.Valid()
  {
    var full := FullShards(lib, data, params);
    forall i :: 0 <= i < |full| ==> h(full[i]) in store && !Clash(h, store, full[i])
  }

  /** After a set of identifiers was lost, a stored chunk is recoverable exactly when enough positions survive,
      given that no stored bytes collide with its shards. */
  lemma RecoverableByPosition(h: Hash, lib: Library, store: Store, data: Bytes, params: ECParams, lost: set<ChunkId>)
    requires params.Valid() && Consistent(h, store) && HoldsShardsOf(h, lib, store, data, params)
    ensures Recoverable(h, lib, store - lost, data, params)
            <==> Surviving(HashAll(h, FullShards(lib, data, params)), lost) >= params.dataShards
  {
    var full := FullShards(lib, data, params);
    SurvivingArePresent(store, HashAll(h, full), lost);
    forall i | 0 <= i < |full|
      ensures store[h(full[i])] == full[i]
    {
      assert !Clash(h, store, full[i]);
    }
  }

  // ---------- a stored file after losses ----------

  /** The store after a file was stored in these pieces. */
  function StoredFile(h: Hash, lib: Library, before: Store, pieces: seq<Bytes>, params: ECParams): Store
    requires params.Valid()
  {
    PutAll(h, before, AllShards(lib, pieces, params))
  }

  /** Storing a file leaves all its shards in the store. */
  lemma {:induction false} AllShardsAreStored(h: Hash, lib: Library, before: Store, pieces: seq<Bytes>, params: ECParams,
                                               p: nat, i: nat)
    requires params.Valid() && p < |pieces| && i < |FullShards(lib, pieces[p], params)|
    ensures h(FullShards(lib, pieces[p], params)[i]) in StoredFile(h, lib, before, pieces, params)
  {
    var front, last := pieces[..|pieces| - 1], pieces[|pieces| - 1];
    var early, late := AllShards(lib, front, params), FullShards(lib, last, params);
    PutAllAppend(h, before, early, late);
    PutAllKeeps(h, PutAll(h, before, early), late);
    if p < |front| {
      AllShardsAreStored(h, lib, before, front, params, p, i);
    }
  }

  /** Every chunk keeps at least dataShards positions. */
  ghost predicate EnoughSurvive(h: Hash, lib: Library, pieces: seq<Bytes>, params: ECParams, lost: set<ChunkId>)
    requires params.Valid()
  {
    forall p :: 0 <= p < |pieces| ==>
      Surviving(HashAll(h, FullShards(lib, pieces[p], params)), lost) >= params.dataShards
  }

  /** Shard i of piece p clashes with stored bytes. */
  ghost predicate ClashAt(h: Hash, lib: Library, store: Store, pieces: seq<Bytes>, params: ECParams, p: nat, i: nat)
    requires params.Valid()
  {
    p < |pieces| && i < |FullShards(lib, pieces[p], params)| && Clash(h, store, FullShards(lib, pieces[p], params)[i])
  }

  ghost predicate SomeClash(h: Hash, lib: Library, store: Store, pieces: seq<Bytes>, params: ECParams)
    requires params.Valid()
  {
    exists p: nat, i: nat :: ClashAt(h, lib, store, pieces, params, p, i)
  }

  lemma PieceIsHeld(h: Hash, lib: Library, before: Store, pieces: seq<Bytes>, params: ECParams, p: nat)
    requires params.Valid() && p < |pieces| && !SomeClash(h, lib, StoredFile(h, lib, before, pieces, params), pieces, params)
    ensures HoldsShardsOf(h, lib, StoredFile(h, lib, before, pieces, params), pieces[p], params)
  {
    var store, full := StoredFile(h, lib, before, pieces, params), FullShards(lib, pieces[p], params);
    forall i | 0 <= i < |full|
      ensures h(full[i]) in store && !Clash(h, store, full[i])
    {
      AllShardsAreStored(h, lib, before, pieces, params, p, i);
      assert !ClashAt(h, lib, store, pieces, params, p, i);
    }
  }

  /** A file that was stored and then lost some identifiers is intact exactly if every chunk keeps dataShards
      positions, unless a shard at a named position collides with stored bytes. */
  lemma StoredFileIsIntact(h: Hash, lib: Library, before: Store, name: string, pieces: seq<Bytes>, chunkSize: int,
                           params: ECParams, lost: set<ChunkId>)
    requires params.Valid() && Consistent(h, before)
    ensures var store := StoredFile(h, lib, before, pieces, params);
            || SomeClash(h, lib, store, pieces, params)
            || (Intact(h, lib, store - lost, ECMetaOf(h, lib, name, pieces, chunkSize, params), pieces)
                <==> EnoughSurvive(h, lib, pieces, params, lost))
  {
    var store := StoredFile(h, lib, before, pieces, params);
    PutAllKeeps(h, before, AllShards(lib, pieces, params));
    if !SomeClash(h, lib, store, pieces, params) {
      forall p | 0 <= p < |pieces|
        ensures Recoverable(h, lib, store - lost, pieces[p], params)
                <==> Surviving(HashAll(h, FullShards(lib, pieces[p], params)), lost) >= params.dataShards
      {
        PieceIsHeld(h, lib, before, pieces, params, p);
        RecoverableByPosition(h, lib, store, pieces[p], params, lost);
      }
    }
  }

  /** Metadata of non-empty pieces of which every layout loads enough positions: enough survive. */
  lemma EnoughLoadSurvives(h: Hash, lib: Library, before: Store, name: string, pieces: seq<Bytes>, chunkSize: int,
                           params: ECParams, lost: set<ChunkId>)
    requires params.Valid() && GoodPieces(pieces, chunkSize)
    requires var meta := ECMetaOf(h, lib, name, pieces, chunkSize, params);
             forall i :: 0 <= i < |meta.chunks| ==>
               EnoughLoad(StoredFile(h, lib, before, pieces, params) - lost, meta.chunks[i].layout)
    ensures EnoughSurvive(h, lib, pieces, params, lost)
  {
    var store, meta := StoredFile(h, lib, before, pieces, params), ECMetaOf(h, lib, name, pieces, chunkSize, params);
    forall p | 0 <= p < |pieces|
      ensures Surviving(HashAll(h, FullShards(lib, pieces[p], params)), lost) >= params.dataShards
    {
      var full := FullShards(lib, pieces[p], params);
      assert EnoughLoad(store - lost, meta.chunks[p].layout);
      forall i | 0 <= i < |full|
        ensures h(full[i]) in store
      {
        AllShardsAreStored(h, lib, before, pieces, params, p, i);
      }
      SurvivingArePresent(store, HashAll(h, full), lost);
    }
  }

  /** What a reconstruction of this file after this loss has to come to. */
  ghost predicate RoundTrip(h: Hash, lib: Library, before: Store, pieces: seq<Bytes>, params: ECParams, lost: set<ChunkId>,
                            ok: bool, out: Bytes)
    requires params.Valid()
  {
    || SomeClash(h, lib, StoredFile(h, lib, before, pieces, params), pieces, params)
    || ((ok <==> EnoughSurvive(h, lib, pieces, params, lost)) && (ok ==> out == Flatten(pieces)))
  }

  lemma MetaIsTrusted(h: Hash, lib: Library, name: string, pieces: seq<Bytes>, chunkSize: int, params: ECParams)
    requires params.Valid() && Trusted(lib, params)
    ensures TrustedFor(lib, ECMetaOf(h, lib, name, pieces, chunkSize, params))
  {
  }

  lemma OutcomeIsRoundTrip(h: Hash, lib: Library, before: Store, name: string, pieces: seq<Bytes>, chunkSize: int,
                           params: ECParams, lost: set<ChunkId>, ok: bool, out: Bytes)
    requires params.Valid() && Consistent(h, before) && GoodPieces(pieces, chunkSize)
    requires var store := StoredFile(h, lib, before, pieces, params) - lost;
             var meta := ECMetaOf(h, lib, name, pieces, chunkSize, params);
             && (Intact(h, lib, store, meta, pieces) ==> ok && out == Flatten(pieces))
             && (ok ==> forall i :: 0 <= i < |meta.chunks| ==> EnoughLoad(store, meta.chunks[i].layout))
    ensures RoundTrip(h, lib, before, pieces, params, lost, ok, out)
  {
    StoredFileIsIntact(h, lib, before, name, pieces, chunkSize, params, lost);
    if ok {
      EnoughLoadSurvives(h, lib, before, name, pieces, chunkSize, params, lost);
    }
  }

  /** Stores a file, loses identifiers from the store, and reconstructs the file from its metadata. The
      reconstruction succeeds exactly if every chunk keeps dataShards positions, and then gives back the bytes
      that were stored, unless a shard collides with stored bytes. */
  method StoreLoseReconstruct(lib: Library, store: ChunkStore, name: string, r: Reader, chunkSize: int, params: ECParams,
                              lost: seq<ChunkId>)
    returns (built: Result<ECFileMeta>, res: Result<()>, out: Bytes, ghost pieces: seq<Bytes>)
    requires Trusted(lib, params) && Consistent(store.hash, store.chunks)
    modifies store, r
    ensures built.Err? && chunkSize > 0 && params.Valid() ==> !Reliable(old(r.plan)) || true in old(store.failures)
    ensures built.Ok? ==> params.Valid() && Flatten(pieces) == old(r.rest) && GoodPieces(pieces, chunkSize)
    ensures built.Ok? ==> RoundTrip(store.hash, lib, old(store.chunks), pieces, params, (set id | id in lost), res.Ok?, out)
  {
    ghost var before := store.chunks;
    built, pieces := BuildECFileMetaFromReader(lib, store, name, r, chunkSize, params);
    if built.Err? {
      return built, Err(built.error), [], pieces;
    }
    MetaIsTrusted(store.hash, lib, name, pieces, chunkSize, params);
    store.DeleteAll(lost);
    res, out := ReconstructFileFromECMeta(lib, store, built.value, seq(|built.value.chunks|, _ => false), pieces);
    OutcomeIsRoundTrip(store.hash, lib, before, name, pieces, chunkSize, params, (set id | id in lost), res.Ok?, out);
  }

  /** The same with the Reed-Solomon code, about which nothing is assumed. */
  method StoreLoseReconstructWithCode(store: ChunkStore, name: string, r: Reader, chunkSize: int, params: ECParams,
                                      lost: seq<ChunkId>)
    returns (built: Result<ECFileMeta>, res: Result<()>, out: Bytes, ghost pieces: seq<Bytes>)
    requires Consistent(store.hash, store.chunks)
    modifies store, r
    ensures built.Ok? ==> params.Valid() && Flatten(pieces) == old(r.rest)
    ensures built.Ok? ==> RoundTrip(store.hash, Code, old(store.chunks), pieces, params, (set id | id in lost), res.Ok?, out)
  {
    CodeIsTrusted(params);
    built, res, out, pieces := StoreLoseReconstruct(Code, store, name, r, chunkSize, params, lost);
  }
}
