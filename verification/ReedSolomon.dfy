/** The erasure-coding library as a contract: systematic encoding, and any k of the k + m shards of
    one encoding give all of them back. The Reed-Solomon code over 256 elements meets the contract. */
module ReedSolomon {
  import opened Ids
  import opened Chunks
  import opened Fields
  import opened Galois

  /** parity computes the parity shards of k data shards; recover completes shards with gaps. */
  datatype Codec = Codec(parity: seq<Bytes> -> seq<Bytes>, recover: seq<Option<Bytes>> -> Result<seq<Bytes>>)

  ghost predicate SameLength(shards: seq<Bytes>, length: nat) {
    forall i :: 0 <= i < |shards| ==> |shards[i]| == length
  }

  function Present(shards: seq<Option<Bytes>>): (n: nat)
    ensures n <= |shards|
  {
    if shards == [] then 0 else (if shards[0].Some? then 1 else 0) + Present(shards[1..])
  }

  /** It is the number of positions that hold a shard. */
  lemma {:induction false} PresentCounts(shards: seq<Option<Bytes>>, n: nat)
    requires n <= |shards|
    ensures Present(shards[|shards| - n..]) == |set i: nat | |shards| - n <= i < |shards| && shards[i].Some?|
    decreases n
  {
    var now := set i: nat | |shards| - n <= i < |shards| && shards[i].Some?;
    if n == 0 {
      assert now == {};
    } else {
      PresentCounts(shards, n - 1);
      var at: nat := |shards| - n;
      var rest := set i: nat | at + 1 <= i < |shards| && shards[i].Some?;
      assert shards[at..][1..] == shards[at + 1..];
      assert now == if shards[at].Some? then rest + {at} else rest;
    }
  }

  /** The shards of one encoding, some of them missing. */
  ghost predicate Remains(shards: seq<Option<Bytes>>, full: seq<Bytes>) {
    |shards| == |full| && forall i :: 0 <= i < |full| ==> shards[i] == None || shards[i] == Some(full[i])
  }

  /** Every shard that is present has this length. */
  ghost predicate PresentLength(shards: seq<Option<Bytes>>, length: nat) {
    forall i :: 0 <= i < |shards| && shards[i].Some? ==> |shards[i].value| == length
  }

  ghost predicate EncodesAll(c: Codec, k: nat, m: nat) {
    forall data: seq<Bytes>, length: nat :: |data| == k && length > 0 && SameLength(data, length) ==>
      |c.parity(data)| == m && SameLength(c.parity(data), length)
  }

  ghost predicate RecoversFromAny(c: Codec, k: nat) {
    forall data: seq<Bytes>, length: nat, shards: seq<Option<Bytes>> ::
      && |data| == k && length > 0 && SameLength(data, length)
      && Remains(shards, data + c.parity(data)) && Present(shards) >= k ==>
        c.recover(shards) == Ok(data + c.parity(data))
  }

  ghost predicate RefusesTooFew(c: Codec, k: nat, m: nat) {
    forall shards: seq<Option<Bytes>> :: |shards| == k + m && Present(shards) < k ==> c.recover(shards).Err?
  }

  ghost predicate KeepsShape(c: Codec, k: nat, m: nat) {
    forall shards: seq<Option<Bytes>>, length: nat ::
      |shards| == k + m && PresentLength(shards, length) && c.recover(shards).Ok? ==>
        |c.recover(shards).value| == k + m && SameLength(c.recover(shards).value, length)
  }

  /** What reedsolomon.New(k, m) promises. */
  ghost predicate Contract(c: Codec, k: nat, m: nat) {
    EncodesAll(c, k, m) && RecoversFromAny(c, k) && RefusesTooFew(c, k, m) && KeepsShape(c, k, m)
  }

  function ValuesOf(shards: seq<Option<Bytes>>): (values: seq<Bytes>)
    ensures |values| == |shards|
    ensures forall i :: 0 <= i < |shards| && shards[i].Some? ==> values[i] == shards[i].value
  {
    seq(|shards|, i requires 0 <= i < |shards| => match shards[i] case Some(v) => v case None => [])
  }

  // ---------- the code: shard r holds the values of polynomials at the r-th point ----------

  /** A shard with its position. */
  datatype Known = Known(pos: nat, bytes: Bytes)

  /** The point of a shard position. */
  function PointAt(r: nat): bv8 {
    (r % 256) as bv8
  }

  lemma PointIsPosition(i: nat)
    requires i < 256
    ensures PointAt(i) as nat == i
  {
    assert i % 256 == i;
  }

  lemma PointsDiffer(i: nat, j: nat)
    requires i < j < 256
    ensures PointAt(i) != PointAt(j)
  {
    PointIsPosition(i);
    PointIsPosition(j);
  }

  /** The bytes at one offset, as points of a polynomial. */
  function Column(known: seq<Known>, offset: nat): (points: seq<Point<bv8>>)
    ensures |points| == |known|
    ensures forall i :: 0 <= i < |known| ==>
              points[i] == Point(PointAt(known[i].pos), if offset < |known[i].bytes| then known[i].bytes[offset] else 0)
  {
    seq(|known|, i requires 0 <= i < |known| =>
      Point(PointAt(known[i].pos), if offset < |known[i].bytes| then known[i].bytes[offset] else 0))
  }

  /** The shard at position r that lies on the same polynomials as the known ones. */
  function ShardAt(known: seq<Known>, length: nat, r: nat): (shard: Bytes)
    ensures |shard| == length
    ensures forall p :: 0 <= p < length ==> shard[p] == Interpolate(GF256(), Column(known, p), PointAt(r))
  {
    seq(length, p requires 0 <= p < length => Interpolate(GF256(), Column(known, p), PointAt(r)))
  }

  /** Data shards at the first positions. */
  function AsKnown(data: seq<Bytes>): (known: seq<Known>)
    ensures |known| == |data| && forall i :: 0 <= i < |data| ==> known[i] == Known(i, data[i])
  {
    seq(|data|, i requires 0 <= i < |data| => Known(i, data[i]))
  }

  function ParityShards(data: seq<Bytes>, m: nat): (parity: seq<Bytes>)
    requires data != []
    ensures |parity| == m
    ensures forall j :: 0 <= j < m ==> parity[j] == ShardAt(AsKnown(data), |data[0]|, |data| + j)
  {
    seq(m, j requires 0 <= j < m => ShardAt(AsKnown(data), |data[0]|, |data| + j))
  }

  /** The first k shards that are present; shards starts at position start. */
  function FirstKnown(shards: seq<Option<Bytes>>, start: nat, k: nat): seq<Known> {
    if shards == [] || k == 0 then []
    else if shards[0].Some? then [Known(start, shards[0].value)] + FirstKnown(shards[1..], start + 1, k - 1)
    else FirstKnown(shards[1..], start + 1, k)
  }

  lemma {:induction false} FirstKnownNumber(shards: seq<Option<Bytes>>, start: nat, k: nat)
    requires Present(shards) >= k
    ensures |FirstKnown(shards, start, k)| == k
  {
    if shards != [] && k > 0 {
      FirstKnownNumber(shards[1..], start + 1, if shards[0].Some? then k - 1 else k);
    }
  }

  /** They are where they say. */
  lemma {:induction false} FirstKnownAt(shards: seq<Option<Bytes>>, start: nat, k: nat, i: nat)
    requires i < |FirstKnown(shards, start, k)|
    ensures var known := FirstKnown(shards, start, k)[i];
            start <= known.pos < start + |shards| && shards[known.pos - start] == Some(known.bytes)
  {
    if shards[0].None? {
      FirstKnownAt(shards[1..], start + 1, k, i);
    } else if i > 0 {
      FirstKnownAt(shards[1..], start + 1, k - 1, i - 1);
    }
  }

  /** They are in order. */
  lemma {:induction false} FirstKnownInOrder(shards: seq<Option<Bytes>>, start: nat, k: nat, i: nat, j: nat)
    requires i < j < |FirstKnown(shards, start, k)|
    ensures FirstKnown(shards, start, k)[i].pos < FirstKnown(shards, start, k)[j].pos
  {
    if shards[0].None? {
      FirstKnownInOrder(shards[1..], start + 1, k, i, j);
    } else if i > 0 {
      FirstKnownInOrder(shards[1..], start + 1, k - 1, i - 1, j - 1);
    } else {
      FirstKnownAt(shards[1..], start + 1, k - 1, j - 1);
    }
  }

  /** Keeps what is present and computes what is missing from the first k shards present. */
  function RecoverShards(k: nat, shards: seq<Option<Bytes>>): Result<seq<Bytes>> {
    var known := FirstKnown(shards, 0, k);
    if Present(shards) < k || known == [] then Err("too few shards given")
    else Ok(seq(|shards|, r requires 0 <= r < |shards| =>
              match shards[r] case Some(v) => v case None => ShardAt(known, |known[0].bytes|, r)))
  }

  function Code(k: int, m: int): Codec {
    Codec(data => if data == [] || m < 0 then [] else ParityShards(data, m),
          shards => if k < 0 then Err("invalid shard number") else RecoverShards(k, shards))
  }

  // ---------- the code meets the contract ----------

  lemma ColumnApart(known: seq<Known>, p: nat)
    requires forall i, j :: 0 <= i < j < |known| ==> known[i].pos < known[j].pos < 256
    ensures Apart(Column(known, p))
  {
    forall i, j | 0 <= i < j < |known|
      ensures PointAt(known[i].pos) != PointAt(known[j].pos)
    {
      PointsDiffer(known[i].pos, known[j].pos);
    }
  }

  /** The polynomial on which all shards of an encoding lie at one offset. */
  function PolynomialOf(data: seq<Bytes>, p: nat): (c: seq<bv8>)
    ensures |c| == |data|
  {
    Coefficients(GF256(), Column(AsKnown(data), p))
  }

  lemma AllOnPolynomial(data: seq<Bytes>, length: nat, m: nat, r: nat, p: nat)
    requires data != [] && SameLength(data, length) && p < length && r < |data| + m <= 256
    ensures var full := data + ParityShards(data, m);
            |full[r]| == length && full[r][p] == Eval(GF256(), PolynomialOf(data, p), PointAt(r))
  {
    var points := Column(AsKnown(data), p);
    GF256IsField();
    InterpolationIsPolynomial(GF256(), points, PointAt(r));
    if r < |data| {
      ColumnApart(AsKnown(data), p);
      InterpolationPasses(GF256(), points, r);
    } else {
      assert (data + ParityShards(data, m))[r] == ParityShards(data, m)[r - |data|];
    }
  }

  /** Distinct shards of one encoding, as many as there are data shards. */
  ghost predicate EnoughKnown(known: seq<Known>, k: nat, full: seq<Bytes>) {
    && |known| == k
    && (forall i :: 0 <= i < k ==> known[i].pos < |full| && known[i].bytes == full[known[i].pos])
    && (forall i, j :: 0 <= i < j < k ==> known[i].pos < known[j].pos)
  }

  /** Enough shards of an encoding determine every byte of it. */
  lemma EnoughForByte(data: seq<Bytes>, length: nat, m: nat, known: seq<Known>, r: nat, p: nat)
    requires data != [] && SameLength(data, length) && p < length && r < |data| + m <= 256
    requires EnoughKnown(known, |data|, data + ParityShards(data, m))
    ensures Interpolate(GF256(), Column(known, p), PointAt(r)) == Eval(GF256(), PolynomialOf(data, p), PointAt(r))
  {
    ColumnApart(known, p);
    GF256IsField();
    forall i | 0 <= i < |known|
      ensures Column(known, p)[i].y == Eval(GF256(), PolynomialOf(data, p), Column(known, p)[i].x)
    {
      AllOnPolynomial(data, length, m, known[i].pos, p);
    }
    InterpolationIsExact(GF256(), PolynomialOf(data, p), Column(known, p), PointAt(r));
  }

  /** Enough shards of an encoding determine all of them. */
  lemma EnoughForShard(data: seq<Bytes>, length: nat, m: nat, known: seq<Known>, r: nat)
    requires data != [] && length > 0 && SameLength(data, length) && r < |data| + m <= 256
    requires EnoughKnown(known, |data|, data + ParityShards(data, m))
    ensures |known[0].bytes| == length
    ensures ShardAt(known, length, r) == (data + ParityShards(data, m))[r]
  {
    var shard, full := ShardAt(known, length, r), data + ParityShards(data, m);
    AllOnPolynomial(data, length, m, known[0].pos, 0);
    AllOnPolynomial(data, length, m, r, 0);
    forall p | 0 <= p < length
      ensures shard[p] == full[r][p]
    {
      AllOnPolynomial(data, length, m, r, p);
      EnoughForByte(data, length, m, known, r, p);
    }
  }

  lemma RemainingAreEnough(k: nat, shards: seq<Option<Bytes>>, full: seq<Bytes>)
    requires Remains(shards, full) && Present(shards) >= k
    ensures EnoughKnown(FirstKnown(shards, 0, k), k, full)
  {
    var known := FirstKnown(shards, 0, k);
    FirstKnownNumber(shards, 0, k);
    forall i | 0 <= i < k
      ensures known[i].pos < |full| && known[i].bytes == full[known[i].pos]
    {
      FirstKnownAt(shards, 0, k, i);
    }
    forall i, j | 0 <= i < j < k
      ensures known[i].pos < known[j].pos
    {
      FirstKnownInOrder(shards, 0, k, i, j);
    }
  }

  lemma CodeRecovers(data: seq<Bytes>, length: nat, m: nat, shards: seq<Option<Bytes>>)
    requires data != [] && length > 0 && SameLength(data, length) && |data| + m <= 256
    requires Remains(shards, data + ParityShards(data, m)) && Present(shards) >= |data|
    ensures RecoverShards(|data|, shards) == Ok(data + ParityShards(data, m))
  {
    var full := data + ParityShards(data, m);
    RemainingAreEnough(|data|, shards, full);
    forall r | 0 <= r < |full|
      ensures RecoverShards(|data|, shards).Ok? && RecoverShards(|data|, shards).value[r] == full[r]
    {
      EnoughForShard(data, length, m, FirstKnown(shards, 0, |data|), r);
    }
    assert RecoverShards(|data|, shards).value == full;
  }

  lemma CodeKeepsShape(k: nat, shards: seq<Option<Bytes>>, length: nat)
    requires PresentLength(shards, length) && RecoverShards(k, shards).Ok?
    ensures |RecoverShards(k, shards).value| == |shards| && SameLength(RecoverShards(k, shards).value, length)
  {
    FirstKnownAt(shards, 0, k, 0);
    assert |FirstKnown(shards, 0, k)[0].bytes| == length;
  }

  /** The Reed-Solomon code meets the library contract for every number of data and parity shards. */
  lemma CodeMeetsContract(k: nat, m: nat)
    requires 0 < k && k + m <= 256
    ensures Contract(Code(k, m), k, m)
  {
    var c := Code(k, m);
    forall data: seq<Bytes>, length: nat, shards: seq<Option<Bytes>>
      | |data| == k && length > 0 && SameLength(data, length)
        && Remains(shards, data + c.parity(data)) && Present(shards) >= k
      ensures c.recover(shards) == Ok(data + c.parity(data))
    {
      CodeRecovers(data, length, m, shards);
    }
    forall shards: seq<Option<Bytes>>, length: nat
      | |shards| == k + m && PresentLength(shards, length) && c.recover(shards).Ok?
      ensures |c.recover(shards).value| == k + m && SameLength(c.recover(shards).value, length)
    {
      CodeKeepsShape(k, shards, length);
    }
  }
}
