/** Content-addressed chunks: identifiers, their hex names, and the store interface.
    SHA-256 is an arbitrary total function that every definition takes as a parameter;
    nothing assumes that it is injective. */
module Chunks {
  import opened Ids

  const CHUNK_ID_BYTES := 32

  type ChunkId = s: Bytes | |s| == CHUNK_ID_BYTES witness seq(CHUNK_ID_BYTES, _ => 0)
  type Hash = Bytes -> ChunkId

  datatype Option<+T> = None | Some(value: T)
  datatype Result<+T> = Ok(value: T) | Err(error: string)

  /** Two different byte strings with the same hash. */
  ghost predicate Collision(h: Hash, x: Bytes, y: Bytes) {
    x != y && h(x) == h(y)
  }

  // ---------- hex names ----------

  function Digit(v: nat): (c: char)
    requires v < 16
    ensures DigitValue(c) == Some(v)
  {
    if v < 10 then ('0' as nat + v) as char else ('a' as nat + (v - 10)) as char
  }

  function DigitValue(c: char): (v: Option<nat>)
    ensures v.Some? ==> v.value < 16
  {
    if '0' <= c <= '9' then Some(c as nat - '0' as nat)
    else if 'a' <= c <= 'f' then Some(10 + (c as nat - 'a' as nat))
    else if 'A' <= c <= 'F' then Some(10 + (c as nat - 'A' as nat))
    else None
  }

  function High(b: bv8): (v: nat)
    ensures v < 16
  {
    (b as nat) / 16
  }

  function Low(b: bv8): (v: nat)
    ensures v < 16
  {
    (b as nat) % 16
  }

  function FromNibbles(hi: nat, lo: nat): bv8
    requires hi < 16 && lo < 16
  {
    (16 * hi + lo) as bv8
  }

  function HexEncode(b: Bytes): (s: string)
    ensures |s| == 2 * |b|
  {
    if b == [] then ""
    else [Digit(High(b[0])), Digit(Low(b[0]))] + HexEncode(b[1..])
  }

  /** Accepts upper and lower case; fails on odd length and on any other character. */
  function HexDecode(s: string): (b: Option<Bytes>)
    ensures b.Some? ==> |s| == 2 * |b.value|
  {
    if s == "" then Some([])
    else if |s| == 1 then None
    else
      match (DigitValue(s[0]), DigitValue(s[1]), HexDecode(s[2..]))
      case (Some(hi), Some(lo), Some(rest)) => Some([FromNibbles(hi, lo)] + rest)
      case _ => None
  }

  /** The digits, and what both cases of them stand for. */
  lemma DigitIs(v: nat)
    requires v < 16
    ensures Digit(v) == "0123456789abcdef"[v]
    ensures DigitValue("0123456789abcdef"[v]) == DigitValue("0123456789ABCDEF"[v]) == Some(v)
  {
  }

  predicate IsHexDigit(c: char) {
    '0' <= c <= '9' || 'a' <= c <= 'f' || 'A' <= c <= 'F'
  }

  lemma DigitsOnly(c: char)
    ensures DigitValue(c).Some? <==> IsHexDigit(c)
  {
  }

  /** Byte i is written at positions 2i and 2i + 1, high half first, in lower case. */
  lemma {:induction false} HexEncodeAt(b: Bytes, i: nat)
    requires i < |b|
    ensures HexEncode(b)[2 * i] == "0123456789abcdef"[(b[i] as nat) / 16]
    ensures HexEncode(b)[2 * i + 1] == "0123456789abcdef"[(b[i] as nat) % 16]
  {
    if i == 0 {
      DigitIs(High(b[0]));
      DigitIs(Low(b[0]));
    } else {
      HexEncodeAt(b[1..], i - 1);
    }
  }

  lemma {:induction false} HexIsLowerCase(b: Bytes, k: nat)
    requires k < 2 * |b|
    ensures '0' <= HexEncode(b)[k] <= '9' || 'a' <= HexEncode(b)[k] <= 'f'
  {
    if k >= 2 {
      HexIsLowerCase(b[1..], k - 2);
    }
  }

  predicate AllHexDigits(s: string) {
    forall k :: 0 <= k < |s| ==> IsHexDigit(s[k])
  }

  lemma AllButTwo(s: string)
    requires |s| >= 2
    ensures AllHexDigits(s) <==> IsHexDigit(s[0]) && IsHexDigit(s[1]) && AllHexDigits(s[2..])
  {
    assert forall k :: 2 <= k < |s| ==> s[k] == s[2..][k - 2];
  }

  lemma DecodeTwo(s: string)
    requires |s| >= 2
    ensures HexDecode(s).Some? <==> IsHexDigit(s[0]) && IsHexDigit(s[1]) && HexDecode(s[2..]).Some?
  {
    DigitsOnly(s[0]);
    DigitsOnly(s[1]);
  }

  /** Decoding succeeds exactly for an even number of hex digits of either case. */
  lemma {:induction false} HexDecodeWhen(s: string)
    ensures HexDecode(s).Some? <==> |s| % 2 == 0 && AllHexDigits(s)
  {
    if |s| >= 2 {
      HexDecodeWhen(s[2..]);
      DecodeTwo(s);
      AllButTwo(s);
    }
  }

  lemma ByteFromNibbles(b: bv8)
    ensures FromNibbles(High(b), Low(b)) == b
  {
    assert 16 * High(b) + Low(b) == b as nat;
  }

  lemma DecodeStep(b: bv8, rest: string)
    ensures HexDecode([Digit(High(b)), Digit(Low(b))] + rest)
            == match HexDecode(rest) case Some(tail) => Some([b] + tail) case None => None
  {
    var s := [Digit(High(b)), Digit(Low(b))] + rest;
    ByteFromNibbles(b);
    assert s[2..] == rest;
  }

  lemma {:induction false} HexRoundTrip(b: Bytes)
    ensures HexDecode(HexEncode(b)) == Some(b)
  {
    if b != [] {
      HexRoundTrip(b[1..]);
      DecodeStep(b[0], HexEncode(b[1..]));
      assert b == [b[0]] + b[1..];
    }
  }

  lemma HexInjective(a: Bytes, b: Bytes)
    requires HexEncode(a) == HexEncode(b)
    ensures a == b
  {
    HexRoundTrip(a);
    HexRoundTrip(b);
  }

  /** A character that is no hex digit makes a name undecodable. */
  lemma {:induction false} BadCharacter(s: string, k: nat)
    requires k < |s| && DigitValue(s[k]).None?
    ensures HexDecode(s).None?
  {
    if k >= 2 {
      BadCharacter(s[2..], k - 2);
    }
  }

  /** ChunkIDFromHex. */
  function ParseChunkId(s: string): (id: Option<ChunkId>) {
    match HexDecode(s)
    case Some(b) => if |b| == CHUNK_ID_BYTES then Some(b) else None
    case None => None
  }

  /** ChunkID.String. */
  function Name(id: ChunkId): (s: string)
    ensures |s| == 64
  {
    HexEncode(id)
  }

  lemma NameParses(id: ChunkId)
    ensures ParseChunkId(Name(id)) == Some(id)
  {
    HexRoundTrip(id);
  }

  /** The names that parse: 64 hex digits of either case. */
  lemma ParsesWhen(s: string)
    ensures ParseChunkId(s).Some? <==> |s| == 64 && AllHexDigits(s)
  {
    HexDecodeWhen(s);
  }

  /** Names have no upper-case letter. */
  lemma NameIsLowerCase(id: ChunkId, k: nat)
    requires k < 64
    ensures '0' <= Name(id)[k] <= '9' || 'a' <= Name(id)[k] <= 'f'
  {
    HexIsLowerCase(id, k);
  }

  // ---------- the store as a value ----------

  type Store = map<ChunkId, Bytes>

  /** PutChunk on a store: content that is already there stays. */
  function Put(h: Hash, store: Store, data: Bytes): Store {
    if h(data) in store then store else store[h(data) := data]
  }

  function PutAll(h: Hash, store: Store, blocks: seq<Bytes>): Store {
    if blocks == [] then store else Put(h, PutAll(h, store, blocks[..|blocks| - 1]), blocks[|blocks| - 1])
  }

  /** Every chunk hashes to its own identifier. */
  ghost predicate Consistent(h: Hash, store: Store) {
    forall id :: id in store ==> h(store[id]) == id
  }

  /** Everything in the first store is in the second one unchanged. */
  ghost predicate Extends(store: Store, larger: Store) {
    forall id :: id in store ==> id in larger && larger[id] == store[id]
  }

  lemma {:induction false} PutAllKeeps(h: Hash, store: Store, blocks: seq<Bytes>)
    ensures Extends(store, PutAll(h, store, blocks))
    ensures forall i :: 0 <= i < |blocks| ==> h(blocks[i]) in PutAll(h, store, blocks)
    ensures Consistent(h, store) ==> Consistent(h, PutAll(h, store, blocks))
    ensures forall id :: id in PutAll(h, store, blocks) ==> id in store || exists i :: 0 <= i < |blocks| && h(blocks[i]) == id
  {
    if blocks != [] {
      PutAllKeeps(h, store, blocks[..|blocks| - 1]);
    }
  }

  predicate PutFails(h: Hash, store: Store, failures: seq<bool>, data: Bytes) {
    h(data) !in store && failures != [] && failures[0]
  }

  /** The coming writes after one put: content that is present needs none. */
  function FailuresAfter(h: Hash, store: Store, failures: seq<bool>, data: Bytes): seq<bool> {
    if h(data) in store || failures == [] then failures else failures[1..]
  }

  function FailuresAfterAll(h: Hash, store: Store, failures: seq<bool>, blocks: seq<Bytes>): seq<bool> {
    if blocks == [] then failures
    else
      var front := blocks[..|blocks| - 1];
      FailuresAfter(h, PutAll(h, store, front), FailuresAfterAll(h, store, failures, front), blocks[|blocks| - 1])
  }

  /** One of the puts of these blocks, made in order, fails. */
  predicate PutsFail(h: Hash, store: Store, failures: seq<bool>, blocks: seq<Bytes>) {
    blocks != []
    && var front := blocks[..|blocks| - 1];
       || PutsFail(h, store, failures, front)
       || PutFails(h, PutAll(h, store, front), FailuresAfterAll(h, store, failures, front), blocks[|blocks| - 1])
  }

  lemma PutsFailStep(h: Hash, store: Store, failures: seq<bool>, blocks: seq<Bytes>, n: nat)
    requires n < |blocks|
    ensures PutsFail(h, store, failures, blocks[..n + 1])
            <==> || PutsFail(h, store, failures, blocks[..n])
                 || PutFails(h, PutAll(h, store, blocks[..n]), FailuresAfterAll(h, store, failures, blocks[..n]), blocks[n])
    ensures FailuresAfterAll(h, store, failures, blocks[..n + 1])
            == FailuresAfter(h, PutAll(h, store, blocks[..n]), FailuresAfterAll(h, store, failures, blocks[..n]), blocks[n])
  {
    assert blocks[..n + 1][..n] == blocks[..n];
  }

  lemma {:induction false} PutsFailPrefix(h: Hash, store: Store, failures: seq<bool>, blocks: seq<Bytes>, n: nat)
    requires n <= |blocks| && PutsFail(h, store, failures, blocks[..n])
    ensures PutsFail(h, store, failures, blocks)
    decreases |blocks| - n
  {
    if n == |blocks| {
      assert blocks[..n] == blocks;
    } else {
      PutsFailStep(h, store, failures, blocks, n);
      PutsFailPrefix(h, store, failures, blocks, n + 1);
    }
  }

  /** A put only fails when a write was going to. */
  lemma {:induction false} FailuresShrink(h: Hash, store: Store, failures: seq<bool>, blocks: seq<Bytes>)
    ensures true in FailuresAfterAll(h, store, failures, blocks) || PutsFail(h, store, failures, blocks) ==> true in failures
  {
    if blocks != [] {
      FailuresShrink(h, store, failures, blocks[..|blocks| - 1]);
    }
  }

  /** A store over a medium whose writes may fail; failures says which of the coming writes do. */
  class ChunkStore {
    const hash: Hash
    var chunks: Store
    var failures: seq<bool>

    constructor (hash: Hash, failures: seq<bool>)
      ensures this.hash == hash && chunks == map[] && this.failures == failures
    {
      this.hash, chunks, this.failures := hash, map[], failures;
    }

    /** Content already present is not written again, so it cannot fail. */
    method PutChunk(data: Bytes) returns (r: Result<ChunkId>)
      modifies this
      ensures r.Ok? ==> r.value == hash(data) && chunks == Put(hash, old(chunks), data)
      ensures r.Err? ==> chunks == old(chunks)
      ensures r.Err? <==> PutFails(hash, old(chunks), old(failures), data)
      ensures failures == FailuresAfter(hash, old(chunks), old(failures), data)
      ensures true in failures ==> true in old(failures)
    {
      var id := hash(data);
      if id in chunks {
        return Ok(id);
      }
      var failed := failures != [] && failures[0];
      if failures != [] {
        failures := failures[1..];
      }
      if failed {
        return Err("write failed");
      }
      chunks := chunks[id := data];
      return Ok(id);
    }

    method GetChunk(id: ChunkId) returns (r: Result<Bytes>)
      ensures r.Ok? <==> id in chunks
      ensures r.Ok? ==> r.value == chunks[id]
    {
      if id !in chunks {
        return Err("chunk does not exist");
      }
      return Ok(chunks[id]);
    }

    /** DeleteChunk: removing a missing chunk is no error. */
    method DeleteChunk(id: ChunkId)
      modifies this`chunks
      ensures chunks == old(chunks) - {id}
    {
      chunks := chunks - {id};
    }

    method DeleteAll(ids: seq<ChunkId>)
      modifies this`chunks
      ensures chunks == old(chunks) - set id | id in ids
    {
      for i := 0 to |ids|
        invariant chunks == old(chunks) - set id | id in ids[..i]
      {
        DeleteChunk(ids[i]);
      }
    }
  }
}
