/** Content identifiers, DAG-PB nodes, and the plain sequential chunking of a file
    that every uploader is compared with. */
module Chunking {
  import opened Prelude

  newtype Byte = b: int | 0 <= b < 256

  type Bytes = seq<Byte>

  const CODEC_RAW: nat := 0x55
  const CODEC_DAG_PB: nat := 0x70
  const HASH_SHA2_256: nat := 0x12
  const HASH_BLAKE2B_256: nat := 0xb220

  datatype Cid = Cid(codec: nat, hashCode: nat, digest: Bytes)

  datatype Link = Link(name: string, tsize: Option<int>, hash: Cid)

  datatype PbNode = PbNode(data: Option<Bytes>, links: seq<Link>)

  /** The part of a UnixFS file message the system writes or reads. */
  datatype UnixFs = UnixFs(data: Option<Bytes>, blockSizes: seq<int>)

  /** The libraries behind one upload: a hash function, DAG-PB and UnixFS. `None` is a decoder that throws. */
  datatype Codec = Codec(
    digest: Bytes -> Bytes,
    encode: PbNode -> Bytes,
    decode: Bytes -> Option<PbNode>,
    marshal: UnixFs -> Bytes,
    unmarshal: Bytes -> Option<UnixFs>)
  {
    predicate SameDigest(a: Bytes, b: Bytes)
    {
      digest(a) == digest(b)
    }

    /** No two byte strings share a digest. */
    ghost predicate Injective()
    {
      forall a, b :: SameDigest(a, b) ==> a == b
    }

    /** Decoding undoes encoding, for both formats. */
    ghost predicate RoundTrips()
    {
      && (forall n :: decode(encode(n)) == Some(n))
      && (forall u :: unmarshal(marshal(u)) == Some(u))
    }

    function RawCid(hashCode: nat, bytes: Bytes): Cid
    {
      Cid(CODEC_RAW, hashCode, digest(bytes))
    }

    function DagPbCid(hashCode: nat, bytes: Bytes): Cid
    {
      Cid(CODEC_DAG_PB, hashCode, digest(bytes))
    }
  }

  /** One line of an upload manifest. Index and length are whatever a file on disk may say. */
  datatype StoredChunk = StoredChunk(index: int, cid: Cid, length: int)

  function ChunkCount(file: Bytes, size: nat): nat
    requires size > 0
  {
    CeilDiv(|file|, size)
  }

  /** Where chunk `i` starts; `ChunkStart(count)` is the end of the file. */
  function ChunkStart(file: Bytes, size: nat, i: nat): (s: nat)
    requires size > 0
    ensures s <= |file|
  {
    Min(i * size, |file|)
  }

  lemma ChunkStartFacts(file: Bytes, size: nat, i: nat)
    requires size > 0
    ensures i >= ChunkCount(file, size) <==> i * size >= |file|
    ensures i < ChunkCount(file, size) ==> ChunkStart(file, size, i) == i * size < |file|
    ensures i >= ChunkCount(file, size) ==> ChunkStart(file, size, i) == |file|
    ensures ChunkStart(file, size, i) <= ChunkStart(file, size, i + 1)
    ensures ChunkStart(file, size, i + 1) == Min(ChunkStart(file, size, i) + size, |file|)
  {
    var count := ChunkCount(file, size);
    if i >= count {
      MulLe(count, i, size);
    } else {
      MulLe(i, count - 1, size);
    }
    assert (i + 1) * size == i * size + size;
  }

  function ChunkAt(file: Bytes, size: nat, i: nat): (c: Bytes)
    requires size > 0
    ensures |c| <= size
  {
    ChunkStartFacts(file, size, i);
    file[ChunkStart(file, size, i)..ChunkStart(file, size, i + 1)]
  }

  /** What a correct manifest says about chunk `i`. */
  function TrueEntry(k: Codec, hashCode: nat, file: Bytes, size: nat, i: nat): (e: StoredChunk)
    requires size > 0
    ensures e.index == i
  {
    var c := ChunkAt(file, size, i);
    StoredChunk(i, k.RawCid(hashCode, c), |c|)
  }

  /** Plain sequential chunking: the first `n` chunks, in file order. */
  function PlainEntries(k: Codec, hashCode: nat, file: Bytes, size: nat, n: nat): (es: seq<StoredChunk>)
    requires size > 0
    ensures |es| == n
    ensures forall i :: 0 <= i < n ==> es[i] == TrueEntry(k, hashCode, file, size, i)
  {
    seq(n, i requires 0 <= i => TrueEntry(k, hashCode, file, size, i))
  }

  function Lengths(chunks: seq<StoredChunk>): (ls: seq<int>)
    ensures |ls| == |chunks|
  {
    seq(|chunks|, i requires 0 <= i < |chunks| => chunks[i].length)
  }

  function LinkTo(c: StoredChunk): Link
  {
    Link("", Some(c.length), c.cid)
  }

  function Links(chunks: seq<StoredChunk>): (ls: seq<Link>)
    ensures |ls| == |chunks|
    ensures forall i :: 0 <= i < |chunks| ==> ls[i] == LinkTo(chunks[i])
  {
    seq(|chunks|, i requires 0 <= i < |chunks| => LinkTo(chunks[i]))
  }

  function RootNode(k: Codec, chunks: seq<StoredChunk>): PbNode
  {
    PbNode(Some(k.marshal(UnixFs(None, Lengths(chunks)))), Links(chunks))
  }

  /** The encoded root block over an ordered chunk list. */
  function RootBytes(k: Codec, chunks: seq<StoredChunk>): Bytes
  {
    k.encode(RootNode(k, chunks))
  }

  function RootCid(k: Codec, hashCode: nat, chunks: seq<StoredChunk>): Cid
  {
    k.DagPbCid(hashCode, RootBytes(k, chunks))
  }

  /** The root a plain sequential upload of the whole file produces. */
  function PlainRoot(k: Codec, hashCode: nat, file: Bytes, size: nat): Cid
    requires size > 0
  {
    RootCid(k, hashCode, PlainEntries(k, hashCode, file, size, ChunkCount(file, size)))
  }

  function Chunks(file: Bytes, size: nat, n: nat): (cs: seq<Bytes>)
    requires size > 0
    ensures |cs| == n && forall i :: 0 <= i < n ==> cs[i] == ChunkAt(file, size, i)
  {
    seq(n, i requires 0 <= i => ChunkAt(file, size, i))
  }

  /** The first `n` chunks, put end to end, are the file up to chunk `n`: slices neither overlap nor leave a gap. */
  lemma {:induction false} ChunksCoverPrefix(file: Bytes, size: nat, n: nat)
    requires size > 0
    ensures Flatten(Chunks(file, size, n)) == file[..ChunkStart(file, size, n)]
  {
    if n > 0 {
      var before, last := Chunks(file, size, n - 1), ChunkAt(file, size, n - 1);
      ChunksCoverPrefix(file, size, n - 1);
      ChunkStartFacts(file, size, n - 1);
      assert Chunks(file, size, n) == before + [last];
      FlattenSnoc(before, last);
    }
  }

  /** The recorded lengths of the first `n` chunks add up to the bytes they cover. */
  lemma {:induction false} LengthsCoverPrefix(k: Codec, hashCode: nat, file: Bytes, size: nat, n: nat)
    requires size > 0
    ensures Sum(Lengths(PlainEntries(k, hashCode, file, size, n))) == ChunkStart(file, size, n)
  {
    if n > 0 {
      var before, last := Lengths(PlainEntries(k, hashCode, file, size, n - 1)), |ChunkAt(file, size, n - 1)|;
      LengthsCoverPrefix(k, hashCode, file, size, n - 1);
      ChunkStartFacts(file, size, n - 1);
      assert Lengths(PlainEntries(k, hashCode, file, size, n)) == before + [last];
      SumAppend(before, [last]);
      assert Sum([last]) == last + Sum([]);
    }
  }

  /** Plain chunking loses nothing: the chunks concatenate to the file and the block sizes sum to its size. */
  lemma ChunksCoverFile(k: Codec, hashCode: nat, file: Bytes, size: nat)
    requires size > 0
    ensures Flatten(Chunks(file, size, ChunkCount(file, size))) == file
    ensures Sum(Lengths(PlainEntries(k, hashCode, file, size, ChunkCount(file, size)))) == |file|
  {
    var n := ChunkCount(file, size);
    ChunksCoverPrefix(file, size, n);
    LengthsCoverPrefix(k, hashCode, file, size, n);
    ChunkStartFacts(file, size, n);
    assert file[..|file|] == file;
  }

  /** A root determines its ordered (cid, length) list, when hashing and encoding lose nothing. */
  lemma RootDeterminesChunks(k: Codec, hashCode: nat, a: seq<StoredChunk>, b: seq<StoredChunk>)
    requires k.Injective() && k.RoundTrips()
    requires RootCid(k, hashCode, a) == RootCid(k, hashCode, b)
    ensures |a| == |b|
    ensures forall i :: 0 <= i < |a| ==> a[i].cid == b[i].cid && a[i].length == b[i].length
  {
    assert k.SameDigest(RootBytes(k, a), RootBytes(k, b));
    assert k.decode(RootBytes(k, a)) == Some(RootNode(k, a));
    assert k.decode(RootBytes(k, b)) == Some(RootNode(k, b));
    assert Links(a) == Links(b);
    forall i | 0 <= i < |a|
      ensures a[i].cid == b[i].cid && a[i].length == b[i].length
    {
      assert Links(a)[i] == LinkTo(a[i]) && Links(b)[i] == LinkTo(b[i]);
    }
  }
}
