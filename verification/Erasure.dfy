/** Splitting bytes into equal shards, and joining what is left of them. */
module Erasure {
  import opened Ids
  import opened Chunks
  import opened Sequences
  import opened ReedSolomon

  datatype ECParams = ECParams(dataShards: int, parityShards: int) {
    function TotalShards(): int {
      dataShards + parityShards
    }

    /** Validate. */
    predicate Valid() {
      dataShards > 0 && parityShards > 0 && TotalShards() <= 255
    }
  }

  /** The library for every parameter pair it is created with. */
  type Library = (int, int) -> Codec

  /** The library meets its contract for these parameters, if they are valid. */
  ghost predicate Trusted(lib: Library, params: ECParams) {
    params.Valid() ==> Contract(lib(params.dataShards, params.parityShards), params.dataShards, params.parityShards)
  }

  /** The Reed-Solomon code is trusted for all parameters. */
  lemma CodeIsTrusted(params: ECParams)
    ensures Trusted(Code, params)
  {
    if params.Valid() {
      CodeMeetsContract(params.dataShards, params.parityShards);
    }
  }

  // ---------- shards as a function of the data ----------

  function ShardSize(n: nat, k: nat): nat
    requires k > 0
  {
    (n + k - 1) / k
  }

  /** The rounded-up shards hold all the data, with fewer than k bytes to spare. */
  lemma ShardSizeFits(n: nat, k: nat)
    requires k > 0
    ensures n <= k * ShardSize(n, k) < n + k
    ensures n > 0 ==> ShardSize(n, k) > 0
  {
    var size := ShardSize(n, k);
    assert n + k - 1 == size * k + (n + k - 1) % k;
    assert size * k == k * size;
    assert size == 0 ==> size * k == 0;
  }

  function Zeros(n: nat): (z: Bytes)
    ensures |z| == n && forall i :: 0 <= i < n ==> z[i] == 0
  {
    seq(n, _ => 0)
  }

  /** The data filled up with zeros to k shards. */
  function Padded(data: Bytes, k: nat): (p: Bytes)
    requires k > 0
    ensures |p| == k * ShardSize(|data|, k) && data <= p
  {
    ShardSizeFits(|data|, k);
    data + Zeros(k * ShardSize(|data|, k) - |data|)
  }

  lemma SliceFits(i: nat, k: nat, size: nat)
    requires i < k
    ensures 0 <= i * size && i * size + size <= k * size && (i + 1) * size == i * size + size
  {
    MulStep(i, k, size);
  }

  /** Shard i is slice i of the padded data. */
  function DataShard(data: Bytes, k: nat, i: nat): (shard: Bytes)
    requires i < k
    ensures |shard| == ShardSize(|data|, k)
  {
    var size := ShardSize(|data|, k);
    SliceFits(i, k, size);
    Padded(data, k)[i * size..i * size + size]
  }

  function DataShards(data: Bytes, k: nat): (shards: seq<Bytes>)
    requires k > 0
    ensures |shards| == k
    ensures forall i :: 0 <= i < k ==> shards[i] == DataShard(data, k, i)
    ensures SameLength(shards, ShardSize(|data|, k))
  {
    seq(k, i requires 0 <= i < k => DataShard(data, k, i))
  }

  lemma {:induction false} FirstShardsJoin(data: Bytes, k: nat, n: nat)
    requires k > 0 && n <= k
    ensures 0 <= n * ShardSize(|data|, k) <= k * ShardSize(|data|, k)
    ensures Flatten(DataShards(data, k)[..n]) == Padded(data, k)[..n * ShardSize(|data|, k)]
  {
    var size, shards := ShardSize(|data|, k), DataShards(data, k);
    MulLe(n, k, size);
    if n > 0 {
      FirstShardsJoin(data, k, n - 1);
      SliceFits(n - 1, k, size);
      FlattenAppend(shards[..n - 1], shards[n - 1]);
      assert shards[..n] == shards[..n - 1] + [shards[n - 1]];
    }
  }

  /** The data shards join to the data followed by fewer than k zeros, whatever whole shards are padding. */
  lemma DataShardsJoin(data: Bytes, k: nat)
    requires k > 0
    ensures var pad := k * ShardSize(|data|, k) - |data|;
            && 0 <= pad < k && Flatten(DataShards(data, k)) == data + Zeros(pad)
            && forall i :: |data| <= i < |data| + pad ==> Flatten(DataShards(data, k))[i] == 0
  {
    ShardSizeFits(|data|, k);
    FirstShardsJoin(data, k, k);
    assert DataShards(data, k)[..k] == DataShards(data, k);
  }

  /** Joining and trimming undoes splitting. */
  lemma JoinAndTrim(data: Bytes, k: nat)
    requires k > 0
    ensures |Flatten(DataShards(data, k))| >= |data| && Flatten(DataShards(data, k))[..|data|] == data
  {
    DataShardsJoin(data, k);
  }

  /** All shards of some data: data shards, then parity; empty data has empty shards. */
  function FullShards(lib: Library, data: Bytes, params: ECParams): seq<Bytes>
    requires params.Valid()
  {
    if data == [] then seq(params.TotalShards(), _ => [])
    else
      var shards := DataShards(data, params.dataShards);
      shards + lib(params.dataShards, params.parityShards).parity(shards)
  }

  lemma ParityShape(lib: Library, shards: seq<Bytes>, params: ECParams, length: nat)
    requires params.Valid() && Trusted(lib, params)
    requires |shards| == params.dataShards && length > 0 && SameLength(shards, length)
    ensures var parity := lib(params.dataShards, params.parityShards).parity(shards);
            |parity| == params.parityShards && SameLength(parity, length)
  {
    assert Contract(lib(params.dataShards, params.parityShards), params.dataShards, params.parityShards);
  }

  lemma FullShardsShape(lib: Library, data: Bytes, params: ECParams)
    requires params.Valid() && Trusted(lib, params) && data != []
    ensures ShardSize(|data|, params.dataShards) > 0
    ensures SameLength(DataShards(data, params.dataShards), ShardSize(|data|, params.dataShards))
    ensures var full := FullShards(lib, data, params);
            |full| == params.TotalShards() && SameLength(full, ShardSize(|data|, params.dataShards))
  {
    ShardSizeFits(|data|, params.dataShards);
    ParityShape(lib, DataShards(data, params.dataShards), params, ShardSize(|data|, params.dataShards));
  }

  // ---------- the loops ----------

  /** The three shapes of a data shard: full, partly padded, all padding. */
  lemma ShardShape(data: Bytes, k: nat, i: nat)
    requires i < k
    ensures var size := ShardSize(|data|, k);
            var start := i * size;
            DataShard(data, k, i) ==
              if start >= |data| then Zeros(size)
              else if start + size > |data| then data[start..] + Zeros(start + size - |data|)
              else data[start..start + size]
  {
    var size := ShardSize(|data|, k);
    var start, shard := i * size, DataShard(data, k, i);
    SliceFits(i, k, size);
    if start >= |data| {
      assert shard == Zeros(size);
    } else if start + size > |data| {
      assert shard == data[start..] + Zeros(start + size - |data|);
    } else {
      assert shard == data[start..start + size];
    }
  }

  /** One data shard: a zeroed buffer with the bytes start .. end copied in, if there are any. */
  method FillShard(data: Bytes, k: nat, i: nat) returns (shard: Bytes)
    requires i < k
    ensures shard == DataShard(data, k, i)
  {
    ShardShape(data, k, i);
    var shardSize := (|data| + k - 1) / k;
    var start := i * shardSize;
    var end := start + shardSize;
    if end > |data| {
      end := |data|;
    }
    shard := Zeros(shardSize);
    if start < |data| {
      shard := data[start..end] + shard[end - start..];
    }
  }

  /** The data shards in front, zeroed parity shards behind. */
  method FillShards(data: Bytes, k: nat, totalShards: nat) returns (shards: array<Bytes>)
    requires 0 < k <= totalShards
    ensures fresh(shards) && shards.Length == totalShards && shards[..k] == DataShards(data, k)
  {
    shards := new Bytes[totalShards](_ => Zeros(ShardSize(|data|, k)));
    for i := 0 to k
      invariant forall j :: 0 <= j < i ==> shards[j] == DataShard(data, k, j)
    {
      shards[i] := FillShard(data, k, i);
    }
  }

  /** EncodeToShards. */
  method EncodeToShards(lib: Library, data: Bytes, params: ECParams) returns (r: Result<seq<Bytes>>)
    requires Trusted(lib, params)
    ensures r.Ok? <==> params.Valid()
    ensures r.Ok? ==> r.value == FullShards(lib, data, params) && |r.value| == params.TotalShards()
    ensures r.Ok? ==> SameLength(r.value, ShardSize(|data|, params.dataShards)) && data <= Flatten(r.value[..params.dataShards])
  {
    if !params.Valid() {
      return Err("invalid params");
    }
    var totalShards := params.TotalShards();
    if |data| == 0 {
      return Ok(seq(totalShards, _ => []));
    }
    var k := params.dataShards;
    var shards := FillShards(data, k, totalShards);
    FullShardsShape(lib, data, params);
    DataShardsJoin(data, k);
    assert FullShards(lib, data, params)[..k] == DataShards(data, k);
    var parity := lib(k, params.parityShards).parity(shards[..k]);
    WriteParity(shards, k, parity);
    return Ok(shards[..]);
  }

  /** The library's Encode fills the parity shards in place. */
  method WriteParity(shards: array<Bytes>, k: nat, parity: seq<Bytes>)
    requires shards.Length == k + |parity|
    modifies shards
    ensures shards[..] == old(shards[..k]) + parity
  {
    for i := 0 to |parity|
      invariant shards[..k] == old(shards[..k])
      invariant shards[k..k + i] == parity[..i]
    {
      shards[k + i] := parity[i];
    }
    assert shards[..] == shards[..k] + shards[k..];
  }

  ghost predicate Inconsistent(shards: seq<Option<Bytes>>) {
    exists i, j :: 0 <= i < j < |shards| && shards[i].Some? && shards[j].Some? && |shards[i].value| != |shards[j].value|
  }

  ghost predicate NonePresent(shards: seq<Option<Bytes>>) {
    forall i :: 0 <= i < |shards| ==> shards[i].None?
  }

  /** The common length of the shards that are present; fails exactly when there is none or two differ. */
  method CommonLength(shards: array<Option<Bytes>>) returns (r: Result<nat>)
    ensures r.Ok? ==> !NonePresent(shards[..]) && PresentLength(shards[..], r.value)
    ensures r.Err? ==> NonePresent(shards[..]) || Inconsistent(shards[..])
  {
    var shardSize := -1;
    for i := 0 to shards.Length
      invariant shardSize >= -1
      invariant shardSize == -1 <==> NonePresent(shards[..i])
      invariant shardSize >= 0 ==> PresentLength(shards[..i], shardSize)
    {
      assert shards[..i + 1] == shards[..i] + [shards[i]];
      if shards[i].Some? {
        if shardSize == -1 {
          shardSize := |shards[i].value|;
        } else if |shards[i].value| != shardSize {
          ghost var j :| 0 <= j < i && shards[..i][j].Some?;
          assert shards[..][j].Some? && shards[..][i].Some? && |shards[..][j].value| != |shards[..][i].value|;
          return Err("inconsistent shard sizes");
        }
      }
    }
    assert shards[..shards.Length] == shards[..];
    if shardSize == -1 {
      return Err("no shard data present");
    }
    return Ok(shardSize);
  }

  /** The shards of this data suffice: only gaps, no wrong bytes, and at least dataShards positions left. */
  ghost predicate Sufficient(lib: Library, data: Bytes, params: ECParams, shards: seq<Option<Bytes>>)
    requires params.Valid()
  {
    Remains(shards, FullShards(lib, data, params)) && Present(shards) >= params.dataShards
  }

  lemma {:induction false} NoneCounted(shards: seq<Option<Bytes>>)
    requires NonePresent(shards)
    ensures Present(shards) == 0
  {
    if shards != [] {
      NoneCounted(shards[1..]);
    }
  }

  /** Sufficient shards pass the length check and are recovered to shards that join to the data. */
  lemma SufficientRecovers(lib: Library, data: Bytes, params: ECParams, shards: seq<Option<Bytes>>)
    requires params.Valid() && Trusted(lib, params) && data != [] && Sufficient(lib, data, params, shards)
    ensures !NonePresent(shards) && !Inconsistent(shards)
    ensures var recovered, k := lib(params.dataShards, params.parityShards).recover(shards), params.dataShards;
            && recovered.Ok? && |recovered.value| == params.TotalShards()
            && |Flatten(recovered.value[..k])| >= |data|
            && Flatten(recovered.value[..k])[..|data|] == data
  {
    var k, m := params.dataShards, params.parityShards;
    FullShardsShape(lib, data, params);
    assert Contract(lib(k, m), k, m);
    if NonePresent(shards) {
      NoneCounted(shards);
    }
    var recovered := lib(k, m).recover(shards);
    assert recovered == Ok(FullShards(lib, data, params));
    assert recovered.value[..k] == DataShards(data, k);
    JoinAndTrim(data, k);
  }

  /** The result is the data, for whichever data the given shards suffice. */
  ghost predicate Restores(lib: Library, params: ECParams, given: seq<Option<Bytes>>, origSize: int, r: Result<Bytes>)
    requires params.Valid()
  {
    forall data: Bytes :: |data| == origSize && Sufficient(lib, data, params, given) ==> r.Ok? && r.value == data
  }

  lemma RecoveredRestores(lib: Library, params: ECParams, given: seq<Option<Bytes>>, origSize: nat)
    requires params.Valid() && Trusted(lib, params) && origSize > 0
    ensures NonePresent(given) || Inconsistent(given) ==> Restores(lib, params, given, origSize, Err(""))
    ensures var recovered, k := lib(params.dataShards, params.parityShards).recover(given), params.dataShards;
            && (recovered.Err? ==> Restores(lib, params, given, origSize, Err("")))
            && (recovered.Ok? && |recovered.value| == params.TotalShards() ==>
                  var joined := Flatten(recovered.value[..k]);
                  Restores(lib, params, given, origSize, if origSize > |joined| then Err("") else Ok(joined[..origSize])))
  {
    forall data: Bytes | |data| == origSize && Sufficient(lib, data, params, given)
      ensures !NonePresent(given) && !Inconsistent(given)
      ensures var recovered, k := lib(params.dataShards, params.parityShards).recover(given), params.dataShards;
              && recovered.Ok? && |recovered.value| == params.TotalShards()
              && |Flatten(recovered.value[..k])| >= |data|
              && Flatten(recovered.value[..k])[..|data|] == data
    {
      SufficientRecovers(lib, data, params, given);
    }
  }

  /** ReconstructFromShards: fills the gaps in place, joins the data shards and trims to origSize. */
  method ReconstructFromShards(lib: Library, shards: array<Option<Bytes>>, params: ECParams, origSize: int) returns (r: Result<Bytes>)
    requires Trusted(lib, params)
    modifies shards
    ensures !params.Valid() || shards.Length != params.TotalShards() || origSize < 0 ==> r.Err?
    ensures origSize > 0 && Present(old(shards[..])) < params.dataShards ==> r.Err?
    ensures r.Ok? ==> |r.value| == origSize
    ensures params.Valid() && shards.Length == params.TotalShards() ==>
              && (origSize == 0 ==> r == Ok([]))
              && Restores(lib, params, old(shards[..]), origSize, r)
  {
    if !params.Valid() {
      return Err("invalid params");
    }
    if shards.Length != params.TotalShards() {
      return Err("wrong number of shards");
    }
    if origSize < 0 {
      return Err("invalid origSize");
    }
    if origSize == 0 {
      return Ok([]);
    }
    r := JoinRemaining(lib, shards, params, origSize);
  }

  method JoinRemaining(lib: Library, shards: array<Option<Bytes>>, params: ECParams, origSize: nat) returns (r: Result<Bytes>)
    requires Trusted(lib, params) && params.Valid() && shards.Length == params.TotalShards() && origSize > 0
    modifies shards
    ensures Present(old(shards[..])) < params.dataShards ==> r.Err?
    ensures r.Ok? ==> |r.value| == origSize
    ensures Restores(lib, params, old(shards[..]), origSize, r)
  {
    var k, m := params.dataShards, params.parityShards;
    assert Contract(lib(k, m), k, m);
    ghost var given := shards[..];
    RecoveredRestores(lib, params, given, origSize);
    var common := CommonLength(shards);
    if common.Err? {
      return Err(common.error);
    }
    var shardSize := common.value;
    var recovered := lib(k, m).recover(shards[..]);
    if recovered.Err? {
      return Err("reconstruct");
    }
    FillGaps(shards, recovered.value);
    var data := JoinShards(shards, k, shardSize);
    assert ValuesOf(shards[..k]) == recovered.value[..k];
    if origSize > |data| {
      return Err("origSize > reconstructed");
    }
    return Ok(data[..origSize]);
  }

  /** The library's Reconstruct writes the missing shards in place. */
  method FillGaps(shards: array<Option<Bytes>>, values: seq<Bytes>)
    requires shards.Length == |values|
    modifies shards
    ensures forall i :: 0 <= i < |values| ==> shards[i] == Some(values[i])
  {
    for i := 0 to shards.Length
      invariant forall j :: 0 <= j < i ==> shards[j] == Some(values[j])
    {
      shards[i] := Some(values[i]);
    }
  }

  /** Copies the first k shards one after the other into a buffer of k * shardSize bytes. */
  method JoinShards(shards: array<Option<Bytes>>, k: nat, shardSize: nat) returns (data: Bytes)
    requires k <= shards.Length
    requires forall i :: 0 <= i < k ==> shards[i].Some? && |shards[i].value| == shardSize
    ensures data == Flatten(ValuesOf(shards[..k]))
  {
    data := [];
    for i := 0 to k
      invariant data == Flatten(ValuesOf(shards[..i]))
    {
      FlattenAppend(ValuesOf(shards[..i]), shards[i].value);
      assert ValuesOf(shards[..i + 1]) == ValuesOf(shards[..i]) + [shards[i].value];
      data := data + shards[i].value;
    }
  }
}
