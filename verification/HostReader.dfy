/** Reading content back by CID through a host that is not trusted. */
module HostReader {
  import opened Prelude
  import opened Chunking

  const MAX_DAG_DEPTH: nat := 32

  datatype ReadError =
    | NestingTooDeep
    | UnexpectedHash
    | IntegrityCheckFailed
    | NotRetrievable
    | UnsupportedCodec
    | MalformedNode
    | TooLarge(size: int, limit: nat)

  /** What the host answers to each lookup. The path from the root tells one lookup of a walk from
      another, so a host may answer the same key differently each time. */
  type Host = (seq<nat>, Bytes) -> Option<Bytes>

  /** `blockMatchesCid`: byte by byte, after the lengths. */
  method BlockMatchesCid(k: Codec, bytes: Bytes, cid: Cid) returns (matches: bool)
    ensures matches <==> k.digest(bytes) == cid.digest
  {
    var expected, actual := cid.digest, k.digest(bytes);
    if |expected| != |actual| {
      return false;
    }
    for i := 0 to |expected|
      invariant expected[..i] == actual[..i]
    {
      if expected[i] != actual[i] {
        return false;
      }
    }
    assert expected[..|expected|] == expected && actual[..|actual|] == actual;
    return true;
  }

  /** `concatBytes`: copies the parts one after the other into a buffer of the total size. */
  method ConcatBytes(parts: seq<Bytes>) returns (out: array<Byte>)
    ensures fresh(out) && out[..] == Flatten(parts)
  {
    out := new Byte[|Flatten(parts)|](_ => 0);
    var offset := 0;
    var i := 0;
    while i < |parts|
      invariant 0 <= i <= |parts|
      invariant Flatten(parts) == Flatten(parts[..i]) + Flatten(parts[i..])
      invariant offset == |Flatten(parts[..i])| && out[..offset] == Flatten(parts[..i])
    {
      var part := parts[i];
      assert parts[i..] == [part] + parts[i + 1..];
      assert parts[..i + 1] == parts[..i] + [part];
      FlattenSnoc(parts[..i], part);
      forall j | 0 <= j < |part| {
        out[offset + j] := part[j];
      }
      assert out[..offset + |part|] == Flatten(parts[..i]) + part;
      offset := offset + |part|;
      i := i + 1;
    }
    assert parts[..|parts|] == parts;
  }

  /** Looks a block up and checks it against its CID. `Ok(None)` is a block the host does not have. */
  function LookupCidBlock(k: Codec, host: Host, path: seq<nat>, cid: Cid): Result<Option<Bytes>, ReadError>
  {
    if cid.hashCode != HASH_BLAKE2B_256 then Err(UnexpectedHash)
    else
      match host(path, cid.digest)
      case None => Ok(None)
      case Some(bytes) => if k.digest(bytes) == cid.digest then Ok(Some(bytes)) else Err(IntegrityCheckFailed)
  }

  predicate Within(size: int, maxBytes: Option<nat>)
  {
    maxBytes.Some? ==> size <= maxBytes.value
  }

  function Enforce(bytes: Bytes, maxBytes: Option<nat>): Result<Bytes, ReadError>
  {
    if maxBytes.Some? && |bytes| > maxBytes.value then Err(TooLarge(|bytes|, maxBytes.value)) else Ok(bytes)
  }

  /** The bytes a DAG-PB leaf carries inline. */
  function InlineData(k: Codec, node: PbNode): Result<Bytes, ReadError>
  {
    match node.data
    case None => Ok([])
    case Some(data) =>
      match k.unmarshal(data)
      case None => Err(MalformedNode)
      case Some(u) => Ok(if u.data.Some? then u.data.value else [])
  }

  function Declared(links: seq<Link>): int
  {
    if links == [] then 0
    else (if links[0].tsize.Some? then links[0].tsize.value else 0) + Declared(links[1..])
  }

  /** `resolveNode`. The depth alone makes it terminate. */
  function Resolve(k: Codec, host: Host, maxBytes: Option<nat>, cid: Cid, path: seq<nat>, depth: nat): Result<Bytes, ReadError>
    requires depth <= MAX_DAG_DEPTH + 1
    decreases MAX_DAG_DEPTH + 1 - depth, 0
  {
    if depth > MAX_DAG_DEPTH then Err(NestingTooDeep)
    else
      match LookupCidBlock(k, host, path, cid)
      case Err(e) => Err(e)
      case Ok(None) => Err(NotRetrievable)
      case Ok(Some(block)) =>
        if cid.codec == CODEC_RAW then Enforce(block, maxBytes)
        else if cid.codec != CODEC_DAG_PB then Err(UnsupportedCodec)
        else
          match k.decode(block)
          case None => Err(MalformedNode)
          case Some(node) =>
            if node.links == [] then
              match InlineData(k, node) {
                case Err(e) => Err(e)
                case Ok(data) => Enforce(data, maxBytes)
              }
            else if maxBytes.Some? && Declared(node.links) > maxBytes.value then
              Err(TooLarge(Declared(node.links), maxBytes.value))
            else
              match ResolveLinks(k, host, maxBytes, node.links, 0, path, depth + 1)
              case Err(e) => Err(e)
              case Ok(parts) => Enforce(Flatten(parts), maxBytes)
  }

  /** The links from `first` on, in link order. Of several failures the leftmost is reported. */
  function ResolveLinks(k: Codec, host: Host, maxBytes: Option<nat>, links: seq<Link>, first: nat, path: seq<nat>, depth: nat)
    : (r: Result<seq<Bytes>, ReadError>)
    requires depth <= MAX_DAG_DEPTH + 1 && first <= |links|
    ensures r.Ok? ==> |r.value| == |links| - first
    decreases MAX_DAG_DEPTH + 1 - depth, 1 + |links| - first
  {
    if first == |links| then Ok([])
    else
      match Resolve(k, host, maxBytes, links[first].hash, path + [first], depth)
      case Err(e) => Err(e)
      case Ok(part) =>
        match ResolveLinks(k, host, maxBytes, links, first + 1, path, depth)
        case Err(e) => Err(e)
        case Ok(parts) => Ok([part] + parts)
  }

  // ---- what a CID denotes ----------------------------------------------------

  /** Content as a tree of blocks. */
  datatype Dag =
    | RawLeaf(block: Bytes)
    | InlineLeaf(block: Bytes, data: Bytes)
    | Branch(block: Bytes, children: seq<Dag>)

  /** The tree is one the CID commits to: every block hashes to the CID that names it. */
  ghost predicate Represents(k: Codec, dag: Dag, cid: Cid)
    decreases dag
  {
    && cid.hashCode == HASH_BLAKE2B_256
    && k.digest(dag.block) == cid.digest
    && match dag
       case RawLeaf(_) => cid.codec == CODEC_RAW
       case InlineLeaf(block, data) =>
         && cid.codec == CODEC_DAG_PB
         && k.decode(block).Some? && k.decode(block).value.links == []
         && InlineData(k, k.decode(block).value) == Ok(data)
       case Branch(block, children) =>
         && cid.codec == CODEC_DAG_PB
         && k.decode(block).Some?
         && var links := k.decode(block).value.links;
            && links != [] && |children| == |links|
            && forall i :: 0 <= i < |children| ==> Represents(k, children[i], links[i].hash)
  }

  /** The leaves, left to right. */
  ghost function Content(dag: Dag): Bytes
    decreases dag
  {
    match dag
    case RawLeaf(block) => block
    case InlineLeaf(_, data) => data
    case Branch(_, children) => Flatten(Contents(children))
  }

  ghost function Contents(children: seq<Dag>): (parts: seq<Bytes>)
    ensures |parts| == |children|
    decreases children
  {
    if children == [] then [] else [Content(children[0])] + Contents(children[1..])
  }

  /** The tree is shallow and small enough for a walk that enters it at `depth`. */
  ghost predicate Fits(k: Codec, dag: Dag, maxBytes: Option<nat>, depth: nat)
    decreases dag
  {
    && depth <= MAX_DAG_DEPTH
    && Within(|Content(dag)|, maxBytes)
    && (dag.Branch? ==>
          && (k.decode(dag.block).Some? ==> Within(Declared(k.decode(dag.block).value.links), maxBytes))
          && forall i :: 0 <= i < |dag.children| ==> Fits(k, dag.children[i], maxBytes, depth + 1))
  }

  /** The host has every block of the tree. */
  ghost predicate Serves(k: Codec, host: Host, dag: Dag, path: seq<nat>)
    decreases dag
  {
    && host(path, k.digest(dag.block)) == Some(dag.block)
    && (dag.Branch? ==> forall i :: 0 <= i < |dag.children| ==> Serves(k, host, dag.children[i], path + [i]))
  }

  // ---- soundness -------------------------------------------------------------

  /** Whatever the host answers, a walk that returns has found a tree the CID commits to, and returns its leaves. */
  lemma {:induction false} ResolveFindsTree(k: Codec, host: Host, maxBytes: Option<nat>, cid: Cid, path: seq<nat>, depth: nat)
    returns (dag: Dag)
    requires depth <= MAX_DAG_DEPTH + 1
    requires Resolve(k, host, maxBytes, cid, path, depth).Ok?
    ensures Represents(k, dag, cid) && Fits(k, dag, maxBytes, depth)
    ensures Resolve(k, host, maxBytes, cid, path, depth).value == Content(dag)
    decreases MAX_DAG_DEPTH + 1 - depth, 0
  {
    var block := LookupCidBlock(k, host, path, cid).value.value;
    if cid.codec == CODEC_RAW {
      dag := RawLeaf(block);
    } else {
      var node := k.decode(block).value;
      if node.links == [] {
        dag := InlineLeaf(block, InlineData(k, node).value);
      } else {
        var children := LinksFindTrees(k, host, maxBytes, node.links, 0, path, depth + 1);
        dag := Branch(block, children);
      }
    }
  }

  lemma {:induction false} LinksFindTrees(k: Codec, host: Host, maxBytes: Option<nat>, links: seq<Link>, first: nat, path: seq<nat>, depth: nat)
    returns (children: seq<Dag>)
    requires depth <= MAX_DAG_DEPTH + 1 && first <= |links|
    requires ResolveLinks(k, host, maxBytes, links, first, path, depth).Ok?
    ensures |children| == |links| - first
    ensures forall i :: 0 <= i < |children| ==>
              Represents(k, children[i], links[first + i].hash) && Fits(k, children[i], maxBytes, depth)
    ensures ResolveLinks(k, host, maxBytes, links, first, path, depth).value == Contents(children)
    decreases MAX_DAG_DEPTH + 1 - depth, 1 + |links| - first
  {
    if first == |links| {
      children := [];
    } else {
      var head := ResolveFindsTree(k, host, maxBytes, links[first].hash, path + [first], depth);
      var tail := LinksFindTrees(k, host, maxBytes, links, first + 1, path, depth);
      children := [head] + tail;
    }
  }

  /** A CID commits to one tree. */
  lemma {:induction false} TreeIsUnique(k: Codec, a: Dag, b: Dag, cid: Cid)
    requires k.Injective() && Represents(k, a, cid) && Represents(k, b, cid)
    ensures a == b
    decreases a
  {
    assert k.SameDigest(a.block, b.block);
    if a.Branch? {
      var links := k.decode(a.block).value.links;
      forall i | 0 <= i < |links|
        ensures a.children[i] == b.children[i]
      {
        TreeIsUnique(k, a.children[i], b.children[i], links[i].hash);
      }
      assert a.children == b.children;
    }
  }

  /** Two hosts, however they behave, can never make the reader return different bytes for one CID. */
  lemma HostsCannotDisagree(k: Codec, host: Host, host': Host, maxBytes: Option<nat>, maxBytes': Option<nat>, cid: Cid)
    requires k.Injective()
    requires Resolve(k, host, maxBytes, cid, [], 0).Ok? && Resolve(k, host', maxBytes', cid, [], 0).Ok?
    ensures Resolve(k, host, maxBytes, cid, [], 0) == Resolve(k, host', maxBytes', cid, [], 0)
  {
    var dag := ResolveFindsTree(k, host, maxBytes, cid, [], 0);
    var dag' := ResolveFindsTree(k, host', maxBytes', cid, [], 0);
    TreeIsUnique(k, dag, dag', cid);
  }

  /** The result never exceeds the cap. */
  lemma {:induction false} ResultWithinCap(k: Codec, host: Host, maxBytes: Option<nat>, cid: Cid)
    ensures var r := Resolve(k, host, maxBytes, cid, [], 0);
            r.Ok? ==> Within(|r.value|, maxBytes)
  {
    if Resolve(k, host, maxBytes, cid, [], 0).Ok? {
      var dag := ResolveFindsTree(k, host, maxBytes, cid, [], 0);
    }
  }

  // ---- completeness ----------------------------------------------------------

  lemma {:induction false} ServedTreeResolves(k: Codec, host: Host, maxBytes: Option<nat>, cid: Cid, path: seq<nat>, depth: nat, dag: Dag)
    requires depth <= MAX_DAG_DEPTH + 1
    requires Represents(k, dag, cid) && Serves(k, host, dag, path) && Fits(k, dag, maxBytes, depth)
    ensures Resolve(k, host, maxBytes, cid, path, depth) == Ok(Content(dag))
    decreases dag
  {
    if dag.Branch? {
      var links := k.decode(dag.block).value.links;
      forall i | 0 <= i < |links|
        ensures Resolve(k, host, maxBytes, links[i].hash, path + [i], depth + 1) == Ok(Content(dag.children[i]))
      {
        ServedTreeResolves(k, host, maxBytes, links[i].hash, path + [i], depth + 1, dag.children[i]);
      }
      assert dag.children[0..] == dag.children;
      LinksResolve(k, host, maxBytes, links, 0, path, depth + 1, dag.children);
    }
  }

  lemma {:induction false} LinksResolve(k: Codec, host: Host, maxBytes: Option<nat>, links: seq<Link>, first: nat, path: seq<nat>, depth: nat,
                                        children: seq<Dag>)
    requires depth <= MAX_DAG_DEPTH + 1 && first <= |links| == |children|
    requires forall i :: 0 <= i < |links| ==>
               Resolve(k, host, maxBytes, links[i].hash, path + [i], depth) == Ok(Content(children[i]))
    ensures ResolveLinks(k, host, maxBytes, links, first, path, depth) == Ok(Contents(children[first..]))
    decreases |links| - first
  {
    if first < |links| {
      LinksResolve(k, host, maxBytes, links, first + 1, path, depth, children);
      assert children[first..][1..] == children[first + 1..];
    }
  }

  /** On a host that has the blocks, a read succeeds exactly when the tree is at most 32 levels deep and
      neither its real nor its declared sizes exceed the cap. */
  lemma ResolveExact(k: Codec, host: Host, maxBytes: Option<nat>, cid: Cid, dag: Dag)
    requires k.Injective()
    requires Represents(k, dag, cid) && Serves(k, host, dag, [])
    ensures Resolve(k, host, maxBytes, cid, [], 0).Ok? <==> Fits(k, dag, maxBytes, 0)
    ensures Resolve(k, host, maxBytes, cid, [], 0).Ok? ==> Resolve(k, host, maxBytes, cid, [], 0).value == Content(dag)
  {
    if Resolve(k, host, maxBytes, cid, [], 0).Ok? {
      var found := ResolveFindsTree(k, host, maxBytes, cid, [], 0);
      TreeIsUnique(k, found, dag, cid);
    }
    if Fits(k, dag, maxBytes, 0) {
      ServedTreeResolves(k, host, maxBytes, cid, [], 0, dag);
    }
  }
}
