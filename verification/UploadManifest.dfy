/** The resumable upload manifest: what is written to disk and what is read back. */
module UploadManifest {
  import opened Prelude
  import opened Chunking

  /** The completed map of a running upload. */
  type Completed = map<int, StoredChunk>

  /** Every entry is stored under its own index. */
  ghost predicate KeyedByIndex(m: Completed)
  {
    forall i :: i in m ==> m[i].index == i
  }

  predicate Sorted(s: seq<StoredChunk>)
  {
    forall i, j :: 0 <= i < j < |s| ==> s[i].index <= s[j].index
  }

  predicate StrictlySorted(s: seq<StoredChunk>)
  {
    forall i, j :: 0 <= i < j < |s| ==> s[i].index < s[j].index
  }

  /** `s` lists exactly the entries of `m`, in strictly ascending index order. */
  ghost predicate Lists(s: seq<StoredChunk>, m: Completed)
  {
    && StrictlySorted(s)
    && (forall c :: c in s ==> c.index in m && m[c.index] == c)
    && (forall i :: i in m ==> m[i] in s)
  }

  lemma {:induction false} StrictlySortedUnique(s: seq<StoredChunk>, t: seq<StoredChunk>)
    requires StrictlySorted(s) && StrictlySorted(t)
    requires forall c :: c in s <==> c in t
    ensures s == t
    decreases |s|
  {
    if s == [] {
      assert forall i :: 0 <= i < |t| ==> t[i] in s;
    } else {
      assert s[0] in t;
      assert t[0] in s;
      assert s[0] == t[0];
      forall c
        ensures c in s[1..] <==> c in t[1..]
      {
        assert c in s <==> c == s[0] || c in s[1..];
        assert c in t <==> c == t[0] || c in t[1..];
        assert s[0] !in s[1..] && t[0] !in t[1..];
      }
      StrictlySortedUnique(s[1..], t[1..]);
      assert s == [s[0]] + s[1..] && t == [t[0]] + t[1..];
    }
  }

  /** A map has only one such listing. */
  lemma ListsUnique(s: seq<StoredChunk>, t: seq<StoredChunk>, m: Completed)
    requires Lists(s, m) && Lists(t, m)
    ensures s == t
  {
    forall c
      ensures c in s <==> c in t
    {
      if c in s { assert m[c.index] in t; }
      if c in t { assert m[c.index] in s; }
    }
    StrictlySortedUnique(s, t);
  }

  function InsertByIndex(c: StoredChunk, s: seq<StoredChunk>): (r: seq<StoredChunk>)
  {
    if s == [] || c.index <= s[0].index then [c] + s
    else [s[0]] + InsertByIndex(c, s[1..])
  }

  /** The stable `sort((a, b) => a.index - b.index)`. */
  function SortByIndex(s: seq<StoredChunk>): (r: seq<StoredChunk>)
  {
    if s == [] then [] else InsertByIndex(s[0], SortByIndex(s[1..]))
  }

  lemma {:induction false} InsertMembers(c: StoredChunk, s: seq<StoredChunk>)
    ensures multiset(InsertByIndex(c, s)) == multiset{c} + multiset(s)
    ensures forall d :: d in InsertByIndex(c, s) <==> d == c || d in s
  {
    if s == [] || c.index <= s[0].index {
    } else {
      InsertMembers(c, s[1..]);
      assert s == [s[0]] + s[1..];
    }
  }

  lemma TailSorted(s: seq<StoredChunk>)
    requires Sorted(s) && s != []
    ensures Sorted(s[1..])
    ensures forall d :: d in s[1..] ==> s[0].index <= d.index
    ensures StrictlySorted(s) ==> StrictlySorted(s[1..]) && forall d :: d in s[1..] ==> s[0].index < d.index
  {
  }

  lemma ConsSorted(c: StoredChunk, s: seq<StoredChunk>)
    requires Sorted(s) && forall d :: d in s ==> c.index <= d.index
    ensures Sorted([c] + s)
    ensures StrictlySorted(s) && (forall d :: d in s ==> c.index < d.index) ==> StrictlySorted([c] + s)
  {
  }

  lemma {:induction false} InsertFacts(c: StoredChunk, s: seq<StoredChunk>)
    requires Sorted(s)
    ensures Sorted(InsertByIndex(c, s))
    ensures multiset(InsertByIndex(c, s)) == multiset{c} + multiset(s)
  {
    InsertMembers(c, s);
    if s == [] {
    } else if c.index <= s[0].index {
      TailSorted(s);
      assert forall d :: d in s ==> d == s[0] || d in s[1..];
      ConsSorted(c, s);
    } else {
      TailSorted(s);
      InsertFacts(c, s[1..]);
      InsertMembers(c, s[1..]);
      ConsSorted(s[0], InsertByIndex(c, s[1..]));
    }
  }

  /** Sorting rearranges, and orders by index. */
  lemma {:induction false} SortFacts(s: seq<StoredChunk>)
    ensures Sorted(SortByIndex(s))
    ensures multiset(SortByIndex(s)) == multiset(s)
  {
    if s != [] {
      SortFacts(s[1..]);
      InsertFacts(s[0], SortByIndex(s[1..]));
      assert s == [s[0]] + s[1..];
    }
  }

  /** A strictly sorted list is left alone. */
  lemma {:induction false} SortOfSorted(s: seq<StoredChunk>)
    requires StrictlySorted(s)
    ensures SortByIndex(s) == s
  {
    if s != [] {
      SortOfSorted(s[1..]);
      assert s == [s[0]] + s[1..];
    }
  }

  /** The order `sort` produces does not depend on the order it was given, when indices are distinct. */
  lemma SortIsListing(s: seq<StoredChunk>, t: seq<StoredChunk>)
    requires StrictlySorted(t) && multiset(s) == multiset(t)
    ensures SortByIndex(s) == t
  {
    SortFacts(s);
    var r := SortByIndex(s);
    forall c
      ensures c in r <==> c in t
    {
      assert c in r <==> c in multiset(r);
      assert c in t <==> c in multiset(t);
    }
    forall x
      ensures multiset(r)[x] <= 1
    {
      DistinctCount(t, x);
    }
    CountsDistinct(r);
    forall i, j | 0 <= i < j < |r|
      ensures r[i].index < r[j].index
    {
      assert r[i] in t && r[j] in t && r[i] != r[j];
    }
    StrictlySortedUnique(r, t);
  }

  /** `[...completedBlocks.values()].sort(...)`: the manifest's block list for a completed map. */
  method SortedValues(m: Completed) returns (s: seq<StoredChunk>)
    requires KeyedByIndex(m)
    ensures Lists(s, m)
  {
    s := [];
    var keys: set<int> := m.Keys;
    while |keys| > 0
      invariant keys <= m.Keys
      invariant StrictlySorted(s)
      invariant forall c :: c in s ==> c.index in m && c.index !in keys && m[c.index] == c
      invariant forall i :: i in m && i !in keys ==> m[i] in s
      decreases keys
    {
      var k := SomeMember(keys);
      InsertFresh(m[k], s);
      s := InsertByIndex(m[k], s);
      keys := keys - {k};
    }
  }

  lemma {:induction false} InsertFresh(c: StoredChunk, s: seq<StoredChunk>)
    requires StrictlySorted(s) && forall d :: d in s ==> d.index != c.index
    ensures StrictlySorted(InsertByIndex(c, s))
    ensures forall d :: d in InsertByIndex(c, s) <==> d == c || d in s
  {
    InsertMembers(c, s);
    if s == [] {
    } else {
      TailSorted(s);
      assert s[0] in s;
      assert forall d :: d in s ==> d == s[0] || d in s[1..];
      if c.index < s[0].index {
        ConsSorted(c, s);
      } else {
        InsertFresh(c, s[1..]);
        ConsSorted(s[0], InsertByIndex(c, s[1..]));
      }
    }
  }

  // ---- saving ----------------------------------------------------------------

  /** What deduplication keeps, as a map: a later entry replaces an earlier one that is not longer. */
  function DedupeMap(blocks: seq<StoredChunk>): (m: Completed)
    decreases |blocks|
  {
    if blocks == [] then map[]
    else
      var m := DedupeMap(blocks[..|blocks| - 1]);
      var block := blocks[|blocks| - 1];
      if block.index !in m || block.length >= m[block.index].length then m[block.index := block] else m
  }

  lemma {:induction false} DedupeMapKeyed(blocks: seq<StoredChunk>)
    ensures KeyedByIndex(DedupeMap(blocks))
    decreases |blocks|
  {
    if blocks != [] { DedupeMapKeyed(blocks[..|blocks| - 1]); }
  }

  method DedupeCompletedBlocks(blocks: seq<StoredChunk>) returns (r: seq<StoredChunk>)
    ensures Lists(r, DedupeMap(blocks))
  {
    var deduped: Completed := map[];
    var n := 0;
    while n < |blocks|
      invariant 0 <= n <= |blocks|
      invariant deduped == DedupeMap(blocks[..n])
    {
      assert blocks[..n + 1][..n] == blocks[..n];
      var block := blocks[n];
      if block.index !in deduped || block.length >= deduped[block.index].length {
        deduped := deduped[block.index := block];
      }
      n := n + 1;
    }
    assert blocks[..|blocks|] == blocks;
    DedupeMapKeyed(blocks);
    r := SortedValues(deduped);
  }

  /** Position `p` holds the last of the longest entries recorded for its index. */
  predicate LastLongest(blocks: seq<StoredChunk>, p: nat)
    requires p < |blocks|
  {
    forall j :: 0 <= j < |blocks| && blocks[j].index == blocks[p].index ==>
      blocks[j].length < blocks[p].length || (blocks[j].length == blocks[p].length && j <= p)
  }

  predicate Occurs(blocks: seq<StoredChunk>, index: int)
  {
    exists p :: 0 <= p < |blocks| && blocks[p].index == index
  }

  lemma {:induction false} DedupeDomain(blocks: seq<StoredChunk>, index: int)
    ensures index in DedupeMap(blocks) <==> Occurs(blocks, index)
    decreases |blocks|
  {
    if blocks != [] {
      var n := |blocks| - 1;
      var front := blocks[..n];
      DedupeDomain(front, index);
      if Occurs(blocks, index) && blocks[n].index != index {
        var p :| 0 <= p < |blocks| && blocks[p].index == index;
        assert front[p].index == index;
      }
      if Occurs(front, index) {
        var p :| 0 <= p < |front| && front[p].index == index;
        assert blocks[p].index == index;
      }
    }
  }

  /** The position of the entry that survives for an index that occurs. */
  lemma {:induction false} DedupeSurvivor(blocks: seq<StoredChunk>, index: int) returns (p: nat)
    requires index in DedupeMap(blocks)
    ensures p < |blocks| && blocks[p] == DedupeMap(blocks)[index] && blocks[p].index == index
    ensures LastLongest(blocks, p)
    decreases |blocks|
  {
    var n := |blocks| - 1;
    var front := blocks[..n];
    var m := DedupeMap(front);
    assert forall j :: 0 <= j < n ==> front[j] == blocks[j];
    if index in m {
      p := DedupeSurvivor(front, index);
      if blocks[n].index == index && blocks[n].length >= m[index].length {
        p := n;
      }
    } else {
      p := n;
      forall j | 0 <= j < n
        ensures blocks[j].index != index
      {
        DedupeDomain(front, index);
        assert front[j].index == blocks[j].index;
      }
    }
  }

  /** Deduplication keeps exactly one entry for each index that occurs: the last of maximal length. */
  lemma DedupeKeepsLastLongest(blocks: seq<StoredChunk>, p: nat)
    requires p < |blocks|
    ensures blocks[p].index in DedupeMap(blocks)
    ensures LastLongest(blocks, p) <==> (DedupeMap(blocks)[blocks[p].index] == blocks[p] && !RepeatedLater(blocks, p))
  {
    var index := blocks[p].index;
    DedupeDomain(blocks, index);
    var q := DedupeSurvivor(blocks, index);
    if LastLongest(blocks, p) {
      assert p == q;
    }
    if blocks[q] == blocks[p] && !RepeatedLater(blocks, p) {
      assert q == p;
    }
  }

  /** The very same entry appears again further on. */
  predicate RepeatedLater(blocks: seq<StoredChunk>, p: nat)
    requires p < |blocks|
  {
    exists j :: p < j < |blocks| && blocks[j] == blocks[p]
  }

  /** Deduplication has nothing left to do on a strictly sorted list. */
  lemma {:induction false} DedupeIdempotent(s: seq<StoredChunk>)
    requires StrictlySorted(s)
    ensures Lists(s, DedupeMap(s))
    decreases |s|
  {
    if s != [] {
      var n := |s| - 1;
      var front := s[..n];
      DedupeIdempotent(front);
      assert s == front + [s[n]];
      assert forall c :: c in front ==> c.index < s[n].index;
      assert s[n].index !in DedupeMap(front) by {
        if s[n].index in DedupeMap(front) {
          assert DedupeMap(front)[s[n].index] in front;
          DedupeMapKeyed(front);
        }
      }
    }
  }

  // ---- loading ---------------------------------------------------------------

  /** One element of the JSON array as parsed: any field may be missing or of the wrong type. */
  datatype RawBlock = RawBlock(cid: Option<Cid>, index: JsNumber, length: JsNumber)

  function NormalizeCompletedBlock(raw: RawBlock): Option<StoredChunk>
  {
    if raw.cid.None? then None
    else if !raw.index.Finite? then None
    else
      var length := if raw.length.Finite? then raw.length.value else 0.0;
      Some(StoredChunk(Max(0, raw.index.value.Floor), raw.cid.value, Max(0, length.Floor)))
  }

  function NormalizeAll(raws: seq<RawBlock>): seq<StoredChunk>
  {
    if raws == [] then []
    else
      var rest := NormalizeAll(raws[1..]);
      match NormalizeCompletedBlock(raws[0])
      case None => rest
      case Some(c) => [c] + rest
  }

  /** The block list of a manifest read from disk. */
  function NormalizeBlocks(raws: seq<RawBlock>): seq<StoredChunk>
  {
    SortByIndex(NormalizeAll(raws))
  }

  /** Loading never yields a negative index or length, whatever the file says. */
  lemma {:induction false} NormalizeYieldsNaturals(raws: seq<RawBlock>)
    ensures forall c :: c in NormalizeBlocks(raws) ==> c.index >= 0 && c.length >= 0
    ensures Sorted(NormalizeBlocks(raws))
  {
    NormalizeAllNaturals(raws);
    SortFacts(NormalizeAll(raws));
    forall c | c in NormalizeBlocks(raws)
      ensures c in NormalizeAll(raws)
    {
      assert c in multiset(NormalizeBlocks(raws));
    }
  }

  lemma {:induction false} NormalizeAllNaturals(raws: seq<RawBlock>)
    ensures forall c :: c in NormalizeAll(raws) ==> c.index >= 0 && c.length >= 0
  {
    if raws != [] { NormalizeAllNaturals(raws[1..]); }
  }

  function ToRaw(c: StoredChunk): RawBlock
  {
    RawBlock(Some(c.cid), Finite(c.index as real), Finite(c.length as real))
  }

  /** `JSON.parse(JSON.stringify(blocks))`. */
  function ToJson(blocks: seq<StoredChunk>): (raws: seq<RawBlock>)
    ensures |raws| == |blocks|
    ensures forall i :: 0 <= i < |blocks| ==> raws[i] == ToRaw(blocks[i])
  {
    seq(|blocks|, i requires 0 <= i < |blocks| => ToRaw(blocks[i]))
  }

  /** The map rebuilt from a list of entries for a resumed upload; a later entry wins. */
  function EntriesByIndex(blocks: seq<StoredChunk>): Completed
    decreases |blocks|
  {
    if blocks == [] then map[]
    else
      var last := blocks[|blocks| - 1];
      EntriesByIndex(blocks[..|blocks| - 1])[last.index := last]
  }

  lemma {:induction false} EntriesKeyed(blocks: seq<StoredChunk>)
    ensures KeyedByIndex(EntriesByIndex(blocks))
    decreases |blocks|
  {
    if blocks != [] { EntriesKeyed(blocks[..|blocks| - 1]); }
  }

  lemma {:induction false} FromListing(s: seq<StoredChunk>)
    requires StrictlySorted(s)
    ensures Lists(s, EntriesByIndex(s))
    ensures forall i :: i in EntriesByIndex(s) ==> exists c :: c in s && c.index == i
    decreases |s|
  {
    if s != [] {
      var n := |s| - 1;
      FromListing(s[..n]);
      assert s == s[..n] + [s[n]];
    }
  }

  lemma ListingDeterminesMap(s: seq<StoredChunk>, m: Completed)
    requires Lists(s, m) && KeyedByIndex(m)
    ensures EntriesByIndex(s) == m
  {
    FromListing(s);
    var r := EntriesByIndex(s);
    forall i
      ensures i in r <==> i in m
      ensures i in r && i in m ==> r[i] == m[i]
    {
      if i in m { assert m[i] in s && m[i].index == i; }
      if i in r { var c :| c in s && c.index == i; }
    }
  }

  lemma {:induction false} JsonKeepsNaturals(s: seq<StoredChunk>)
    requires forall c :: c in s ==> c.index >= 0 && c.length >= 0
    ensures NormalizeAll(ToJson(s)) == s
  {
    if s != [] {
      assert ToJson(s)[1..] == ToJson(s[1..]);
      JsonKeepsNaturals(s[1..]);
      assert s[0] in s;
      assert (s[0].index as real).Floor == s[0].index;
      assert (s[0].length as real).Floor == s[0].length;
    }
  }

  /** Saving a completed map and reloading it gives the map back: listing, deduplicating,
      the trip through JSON, normalising and rebuilding lose and invent nothing. */
  lemma ManifestRoundTrip(m: Completed, listed: seq<StoredChunk>, saved: seq<StoredChunk>)
    requires KeyedByIndex(m)
    requires forall i :: i in m ==> i >= 0 && m[i].length >= 0
    requires Lists(listed, m)
    requires Lists(saved, DedupeMap(listed))
    ensures saved == listed
    ensures EntriesByIndex(NormalizeBlocks(ToJson(saved))) == m
  {
    DedupeIdempotent(listed);
    ListsUnique(saved, listed, DedupeMap(listed));
    JsonKeepsNaturals(listed);
    SortOfSorted(listed);
    ListingDeterminesMap(listed, m);
  }

  /** `toManifest` followed by `saveManifest`: the block list that reaches the disk. */
  method PersistedBlocks(completed: Completed) returns (saved: seq<StoredChunk>)
    requires KeyedByIndex(completed)
    ensures Lists(saved, completed)
    ensures EntriesByIndex(saved) == completed
  {
    var listed := SortedValues(completed);
    saved := DedupeCompletedBlocks(listed);
    DedupeIdempotent(listed);
    ListsUnique(saved, listed, DedupeMap(listed));
    ListingDeterminesMap(saved, completed);
  }

  // ---- the keyed store -------------------------------------------------------

  datatype Identity = Identity(inputPath: string, fileSize: int, fileMtimeMs: int, chunkSize: int)

  datatype Manifest = Manifest(identity: Identity, id: string, fingerprint: string, completedBlocks: seq<StoredChunk>)

  type Store = map<string, Manifest>

  const MANIFEST_ID_LENGTH: nat := 16

  function ManifestId(fingerprint: string): string
  {
    if |fingerprint| <= MANIFEST_ID_LENGTH then fingerprint else fingerprint[..MANIFEST_ID_LENGTH]
  }

  /** Fills in a missing fingerprint and id before a save. */
  function EnsureManifestIdentity(hash: Identity -> string, m: Manifest): Manifest
  {
    var fingerprint := if m.fingerprint != "" then m.fingerprint else hash(m.identity);
    var id := if m.id != "" then m.id else ManifestId(fingerprint);
    m.(fingerprint := fingerprint, id := id)
  }

  function SaveManifest(hash: Identity -> string, store: Store, m: Manifest): Store
  {
    var normalized := EnsureManifestIdentity(hash, m);
    store[normalized.id := normalized]
  }

  function LoadManifest(hash: Identity -> string, store: Store, target: Identity): Option<Manifest>
  {
    var expected := hash(target);
    var id := ManifestId(expected);
    if id !in store || store[id].fingerprint != expected then None else Some(store[id])
  }

  /** Every manifest on disk carries the fingerprint of the upload it belongs to. */
  ghost predicate OwnFingerprints(hash: Identity -> string, store: Store)
  {
    forall id :: id in store ==> store[id].fingerprint == hash(store[id].identity)
  }

  /** A saved manifest is found again under its identity; and though ids are only a prefix of the
      fingerprint, no other upload is ever handed it. */
  lemma LoadFindsOwnManifestOnly(hash: Identity -> string, store: Store, m: Manifest, target: Identity)
    requires forall a, b :: hash(a) == hash(b) ==> a == b
    requires OwnFingerprints(hash, store)
    requires m.fingerprint in {"", hash(m.identity)} && m.id in {"", ManifestId(hash(m.identity))}
    ensures var store' := SaveManifest(hash, store, m);
            && OwnFingerprints(hash, store')
            && (target == m.identity ==> LoadManifest(hash, store', target) == Some(EnsureManifestIdentity(hash, m)))
            && (LoadManifest(hash, store', target).Some? ==> LoadManifest(hash, store', target).value.identity == target)
  {
    assert hash(target) == hash(m.identity) ==> target == m.identity;
  }
}
