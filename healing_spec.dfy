/** The value-level description of one state-healing batch: how the fetched
    nodes are paired with the queued paths, what each pairing discovers, and
    which accounts and code hashes are handed to the sibling healers. */
module HealingSpec {
  import opened Common
  import opened TrieCodec

  /** `EMPTY_TRIE_HASH`: keccak of the RLP of the empty string. */
  const EmptyTrieHash: Hash32 :=
    [0x56, 0xe8, 0x1f, 0x17, 0x1b, 0xcc, 0x55, 0xa6, 0xff, 0x83, 0x45, 0xe6, 0x92, 0xc0, 0xf8, 0x6e,
     0x5b, 0x48, 0xe0, 0x1b, 0x99, 0x6c, 0xad, 0xc0, 0x01, 0x62, 0x2f, 0xb5, 0xe3, 0x63, 0xb4, 0x21]
  /** `EMPTY_KECCACK_HASH`: keccak of the empty byte string. */
  const EmptyKeccakHash: Hash32 :=
    [0xc5, 0xd2, 0x46, 0x01, 0x86, 0xf7, 0x23, 0x3c, 0x92, 0x7e, 0x7d, 0xb2, 0xdc, 0xc7, 0x03, 0xc0,
     0xe5, 0x00, 0xb6, 0x53, 0xca, 0x82, 0x27, 0x3b, 0x7b, 0xfa, 0xd8, 0x04, 0x5d, 0x85, 0xa4, 0x70]

  datatype AccountState = AccountState(nonce: nat, balance: nat, storageRoot: Hash32, codeHash: Hash32)

  datatype SyncError =
    | CorruptPath
      /** the leaf's value is not an account (`AccountState::decode` failed) */
    | AccountDecode
      /** `batch.remove(0)` on an empty batch: more nodes came back than there were paths */
    | PathsExhausted

  /** Collaborators whose code lies outside the healing core. */
  datatype Oracles = Oracles(
    /** `node_missing_children` against the node store */
    missingChildren: (Node, Nibbles, map<NodeHash, seq<byte>>) -> seq<Nibbles>,
    /** `Nibbles::to_bytes` */
    nibblesToBytes: Nibbles -> seq<byte>,
    /** `AccountState::decode` */
    decodeAccount: seq<byte> -> Option<AccountState>,
    /** `Node::compute_hash` */
    hashOf: Node -> NodeHash)

  /** What a batch reads from the store while it walks the fetched nodes. */
  datatype StoreView = StoreView(
    trieNodes: map<NodeHash, seq<byte>>,
    storageNodes: set<(Hash32, Hash32)>,
    codes: set<Hash32>)

  /** One fetched node, the path it was paired with, and the missing children
      found under it. */
  datatype Visit = Visit(path: Nibbles, node: Node, children: seq<Nibbles>)

  /** The batch's loop state after some of the fetched nodes. */
  datatype Scan = Scan(
    batch: seq<Nibbles>,
    hashedAddresses: seq<Hash32>,
    codeHashes: seq<Hash32>,
    visits: seq<Visit>)

  function PathsOf(visits: seq<Visit>): (r: seq<Nibbles>)
    ensures |r| == |visits|
    ensures forall i :: 0 <= i < |visits| ==> r[i] == visits[i].path
  {
    if visits == [] then [] else PathsOf(visits[..|visits| - 1]) + [visits[|visits| - 1].path]
  }

  function ChildrenOf(visits: seq<Visit>): seq<Nibbles>
  {
    if visits == [] then [] else ChildrenOf(visits[..|visits| - 1]) + visits[|visits| - 1].children
  }

  lemma {:induction false} ChildrenOfAppend(a: seq<Visit>, b: seq<Visit>)
    ensures ChildrenOf(a + b) == ChildrenOf(a) + ChildrenOf(b)
    decreases |b|
  {
    if b != [] {
      var b' := b[..|b| - 1];
      assert (a + b)[..|a + b| - 1] == a + b';
      ChildrenOfAppend(a, b');
    } else {
      assert a + b == a;
    }
  }

  lemma {:induction false} PathsOfAppend(a: seq<Visit>, b: seq<Visit>)
    ensures PathsOf(a + b) == PathsOf(a) + PathsOf(b)
  {
  }

  /** The account key of a leaf: its full path as bytes. */
  function AccountKey(path: Nibbles, leaf: Node, o: Oracles): seq<byte>
    requires leaf.Leaf?
  {
    o.nibblesToBytes(path + leaf.partial)
  }

  /** The account owns storage that is not yet stored locally. */
  predicate NeedsStorageHealing(account: AccountState, accountHash: Hash32, v: StoreView)
  {
    account.storageRoot != EmptyTrieHash && (accountHash, account.storageRoot) !in v.storageNodes
  }

  /** The account owns bytecode that is not yet stored locally. */
  predicate NeedsBytecode(account: AccountState, v: StoreView)
  {
    account.codeHash != EmptyKeccakHash && account.codeHash !in v.codes
  }

  /** Pair `node` with the front path, queue its missing children behind the
      batch and, for a leaf, check its key and record its side work. */
  function Step(s: Scan, node: Node, o: Oracles, v: StoreView): Result<Scan, SyncError>
  {
    if s.batch == [] then Err(PathsExhausted)
    else
      var path := s.batch[0];
      var children := o.missingChildren(node, path, v.trieNodes);
      var batch := s.batch[1..] + children;
      var visits := s.visits + [Visit(path, node, children)];
      if !node.Leaf? then Ok(Scan(batch, s.hashedAddresses, s.codeHashes, visits))
      else
        match o.decodeAccount(node.value)
        case None => Err(AccountDecode)
        case Some(account) =>
          var key := AccountKey(path, node, o);
          if |key| != 32 then Err(CorruptPath)
          else
            var storage := if NeedsStorageHealing(account, key, v) then [key] else [];
            var code := if NeedsBytecode(account, v) then [account.codeHash] else [];
            Ok(Scan(batch, s.hashedAddresses + storage, s.codeHashes + code, visits))
  }

  /** What every successful step does to the queue and the visits. */
  lemma StepShape(s: Scan, node: Node, o: Oracles, v: StoreView)
    requires Step(s, node, o, v).Ok?
    ensures s.batch != []
    ensures var t := Step(s, node, o, v).value;
      var children := o.missingChildren(node, s.batch[0], v.trieNodes);
      && t.visits == s.visits + [Visit(s.batch[0], node, children)]
      && t.batch == s.batch[1..] + children
  {
  }

  /** Consuming the front path and queueing children behind the rest keeps
      the queue identity. */
  lemma QueueShift(batch: seq<Nibbles>, visits: seq<Visit>, queue: seq<Nibbles>, node: Node, children: seq<Nibbles>)
    requires queue != []
    requires batch + ChildrenOf(visits) == PathsOf(visits) + queue
    ensures var visits' := visits + [Visit(queue[0], node, children)];
      batch + ChildrenOf(visits') == PathsOf(visits') + (queue[1..] + children)
  {
    var visits' := visits + [Visit(queue[0], node, children)];
    assert visits'[..|visits'| - 1] == visits;
    assert ChildrenOf(visits') == ChildrenOf(visits) + children;
    assert PathsOf(visits') == PathsOf(visits) + [queue[0]];
    ShiftFront(batch, ChildrenOf(visits), PathsOf(visits), queue, children);
  }

  /** The sequence arithmetic of `QueueShift`. */
  lemma ShiftFront<T>(b: seq<T>, c: seq<T>, p: seq<T>, q: seq<T>, x: seq<T>)
    requires q != []
    requires b + c == p + q
    ensures b + (c + x) == (p + [q[0]]) + (q[1..] + x)
  {
    assert b + (c + x) == (b + c) + x;
    assert q == [q[0]] + q[1..];
  }

  /** A step consumes the front path and queues the children behind the
      batch, so the queue identity of `ScanNodes` carries over. */
  lemma StepKeepsQueue(batch: seq<Nibbles>, s: Scan, node: Node, o: Oracles, v: StoreView)
    requires batch + ChildrenOf(s.visits) == PathsOf(s.visits) + s.batch
    requires Step(s, node, o, v).Ok?
    ensures var t := Step(s, node, o, v).value;
      batch + ChildrenOf(t.visits) == PathsOf(t.visits) + t.batch
  {
    StepShape(s, node, o, v);
    QueueShift(batch, s.visits, s.batch, node, o.missingChildren(node, s.batch[0], v.trieNodes));
  }

  /** Every leaf visited so far carries an account and a 32-byte key. */
  predicate LeavesChecked(visits: seq<Visit>, o: Oracles)
  {
    forall i :: 0 <= i < |visits| && visits[i].node.Leaf? ==>
      o.decodeAccount(visits[i].node.value).Some? && |AccountKey(visits[i].path, visits[i].node, o)| == 32
  }

  lemma StepChecksLeaf(s: Scan, node: Node, o: Oracles, v: StoreView)
    requires LeavesChecked(s.visits, o)
    requires Step(s, node, o, v).Ok?
    ensures LeavesChecked(Step(s, node, o, v).value.visits, o)
  {
    var t := Step(s, node, o, v).value;
    assert forall i :: 0 <= i < |s.visits| ==> t.visits[i] == s.visits[i];
  }

  /** The loop of `heal_state_batch` over the fetched nodes, one `Step` each. */
  function ScanNodes(nodes: seq<Node>, batch: seq<Nibbles>, o: Oracles, v: StoreView): (r: Result<Scan, SyncError>)
    ensures r.Ok? ==> |r.value.visits| == |nodes|
    ensures r.Ok? ==> forall i :: 0 <= i < |nodes| ==>
      r.value.visits[i].node == nodes[i] &&
      r.value.visits[i].children == o.missingChildren(nodes[i], r.value.visits[i].path, v.trieNodes)
    ensures r.Ok? ==> batch + ChildrenOf(r.value.visits) == PathsOf(r.value.visits) + r.value.batch
    ensures r.Ok? ==> LeavesChecked(r.value.visits, o)
  {
    if nodes == [] then Ok(Scan(batch, [], [], []))
    else
      match ScanNodes(nodes[..|nodes| - 1], batch, o, v)
      case Err(e) => Err(e)
      case Ok(s) =>
        var t := Step(s, nodes[|nodes| - 1], o, v);
        if t.Ok? then
          StepKeepsQueue(batch, s, nodes[|nodes| - 1], o, v);
          StepShape(s, nodes[|nodes| - 1], o, v);
          StepChecksLeaf(s, nodes[|nodes| - 1], o, v);
          t
        else t
  }

  /** One more fetched node: the scan so far, then one step. */
  lemma ScanExtends(nodes: seq<Node>, i: nat, batch: seq<Nibbles>, o: Oracles, v: StoreView)
    requires i < |nodes|
    ensures ScanNodes(nodes[..i + 1], batch, o, v)
         == match ScanNodes(nodes[..i], batch, o, v)
            case Err(e) => Err(e)
            case Ok(s) => Step(s, nodes[i], o, v)
  {
    var longer := nodes[..i + 1];
    assert longer[..|longer| - 1] == nodes[..i];
  }

  lemma {:induction false} ScanErrorPersists(nodes: seq<Node>, j: nat, batch: seq<Nibbles>, o: Oracles, v: StoreView)
    requires j <= |nodes|
    requires ScanNodes(nodes[..j], batch, o, v).Err?
    ensures ScanNodes(nodes, batch, o, v) == ScanNodes(nodes[..j], batch, o, v)
    decreases |nodes| - j
  {
    if j < |nodes| {
      var longer := nodes[..j + 1];
      assert longer[..|longer| - 1] == nodes[..j];
      ScanErrorPersists(nodes, j + 1, batch, o, v);
    } else {
      assert nodes[..j] == nodes;
    }
  }

  lemma SplitPrefix<T>(a: seq<T>, c: seq<T>, p: seq<T>, b: seq<T>)
    requires a + c == p + b && |p| <= |a|
    ensures p == a[..|p|] && b == a[|p|..] + c
  {
    var k := |p|;
    assert (a + c)[..k] == a[..k];
    assert (p + b)[..k] == p;
    assert (a + c)[k..] == a[k..] + c;
    assert (p + b)[k..] == b;
  }

  /** When the peer answered no more nodes than were asked for, node i is
      paired with path i; the unfetched paths stay at the front, followed by
      the missing children of each pair in order. */
  lemma PairingInOrder(nodes: seq<Node>, batch: seq<Nibbles>, o: Oracles, v: StoreView)
    requires |nodes| <= |batch|
    requires ScanNodes(nodes, batch, o, v).Ok?
    ensures var s := ScanNodes(nodes, batch, o, v).value;
      && PathsOf(s.visits) == batch[..|nodes|]
      && s.batch == batch[|nodes|..] + ChildrenOf(s.visits)
      && forall i :: 0 <= i < |nodes| ==>
           s.visits[i].children == o.missingChildren(nodes[i], batch[i], v.trieNodes)
  {
    var s := ScanNodes(nodes, batch, o, v).value;
    SplitPrefix(batch, ChildrenOf(s.visits), PathsOf(s.visits), s.batch);
    assert forall i :: 0 <= i < |nodes| ==> s.visits[i].path == PathsOf(s.visits)[i];
  }

  /** The account-hash queue of a leaf visit, as the source states it. */
  predicate QueuesStorage(visit: Visit, h: Hash32, o: Oracles, v: StoreView)
  {
    && visit.node.Leaf?
    && o.decodeAccount(visit.node.value).Some?
    && AccountKey(visit.path, visit.node, o) == h
    && NeedsStorageHealing(o.decodeAccount(visit.node.value).value, h, v)
  }

  predicate QueuesCode(visit: Visit, h: Hash32, o: Oracles, v: StoreView)
  {
    && visit.node.Leaf?
    && o.decodeAccount(visit.node.value).Some?
    && o.decodeAccount(visit.node.value).value.codeHash == h
    && NeedsBytecode(o.decodeAccount(visit.node.value).value, v)
  }

  /** One step adds at most the side work of the visit it appends. */
  lemma StepSideWork(s: Scan, node: Node, o: Oracles, v: StoreView)
    requires Step(s, node, o, v).Ok?
    ensures var t := Step(s, node, o, v).value;
      && t.visits == s.visits + [t.visits[|s.visits|]]
      && (forall h: Hash32 :: h in t.hashedAddresses <==>
            h in s.hashedAddresses || QueuesStorage(t.visits[|s.visits|], h, o, v))
      && (forall h: Hash32 :: h in t.codeHashes <==>
            h in s.codeHashes || QueuesCode(t.visits[|s.visits|], h, o, v))
  {
  }

  /** An account hash is queued for storage healing exactly when some visited
      leaf has a non-empty storage root that is absent from the store. */
  lemma {:induction false} StorageWorkExact(nodes: seq<Node>, batch: seq<Nibbles>, o: Oracles, v: StoreView)
    requires ScanNodes(nodes, batch, o, v).Ok?
    ensures var s := ScanNodes(nodes, batch, o, v).value;
      forall h: Hash32 :: h in s.hashedAddresses <==>
        exists i :: 0 <= i < |s.visits| && QueuesStorage(s.visits[i], h, o, v)
  {
    var s := ScanNodes(nodes, batch, o, v).value;
    if nodes != [] {
      var init := nodes[..|nodes| - 1];
      StorageWorkExact(init, batch, o, v);
      var p := ScanNodes(init, batch, o, v).value;
      StepSideWork(p, nodes[|nodes| - 1], o, v);
      forall h: Hash32
        ensures h in s.hashedAddresses <==> exists i :: 0 <= i < |s.visits| && QueuesStorage(s.visits[i], h, o, v)
      {
        if exists i :: 0 <= i < |s.visits| && QueuesStorage(s.visits[i], h, o, v) {
          var i :| 0 <= i < |s.visits| && QueuesStorage(s.visits[i], h, o, v);
          if i < |p.visits| {
            assert p.visits[i] == s.visits[i];
          }
        }
      }
    }
  }

  /** A code hash is queued for bytecode fetching exactly when some visited
      leaf has non-empty code that is absent from the store. */
  lemma {:induction false} CodeWorkExact(nodes: seq<Node>, batch: seq<Nibbles>, o: Oracles, v: StoreView)
    requires ScanNodes(nodes, batch, o, v).Ok?
    ensures var s := ScanNodes(nodes, batch, o, v).value;
      forall h: Hash32 :: h in s.codeHashes <==>
        exists i :: 0 <= i < |s.visits| && QueuesCode(s.visits[i], h, o, v)
  {
    var s := ScanNodes(nodes, batch, o, v).value;
    if nodes != [] {
      var init := nodes[..|nodes| - 1];
      CodeWorkExact(init, batch, o, v);
      var p := ScanNodes(init, batch, o, v).value;
      StepSideWork(p, nodes[|nodes| - 1], o, v);
      forall h: Hash32
        ensures h in s.codeHashes <==> exists i :: 0 <= i < |s.visits| && QueuesCode(s.visits[i], h, o, v)
      {
        if exists i :: 0 <= i < |s.visits| && QueuesCode(s.visits[i], h, o, v) {
          var i :| 0 <= i < |s.visits| && QueuesCode(s.visits[i], h, o, v);
          if i < |p.visits| {
            assert p.visits[i] == s.visits[i];
          }
        }
      }
    }
  }

  /** A leaf paired with a path whose full key is not 32 bytes aborts the
      batch with `CorruptPath`, once the nodes before it were accepted. */
  lemma CorruptLeafAborts(nodes: seq<Node>, batch: seq<Nibbles>, o: Oracles, v: StoreView, i: nat)
    requires i < |nodes| && i < |batch|
    requires ScanNodes(nodes[..i], batch, o, v).Ok?
    requires nodes[i].Leaf? && o.decodeAccount(nodes[i].value).Some?
    requires |AccountKey(batch[i], nodes[i], o)| != 32
    ensures ScanNodes(nodes, batch, o, v) == Err(CorruptPath)
  {
    CorruptLeafStep(nodes, batch, o, v, i);
    ScanErrorPersists(nodes, i + 1, batch, o, v);
  }

  /** The step of `CorruptLeafAborts` at the offending leaf itself. */
  lemma CorruptLeafStep(nodes: seq<Node>, batch: seq<Nibbles>, o: Oracles, v: StoreView, i: nat)
    requires i < |nodes| && i < |batch|
    requires ScanNodes(nodes[..i], batch, o, v).Ok?
    requires nodes[i].Leaf? && o.decodeAccount(nodes[i].value).Some?
    requires |AccountKey(batch[i], nodes[i], o)| != 32
    ensures ScanNodes(nodes[..i + 1], batch, o, v) == Err(CorruptPath)
  {
    var prefix := nodes[..i];
    PairingInOrder(prefix, batch, o, v);
    var p := ScanNodes(prefix, batch, o, v).value;
    assert p.batch[0] == batch[i];
    assert Step(p, nodes[i], o, v) == Err(CorruptPath);
    var longer := nodes[..i + 1];
    assert longer[..|longer| - 1] == prefix && longer[|longer| - 1] == nodes[i];
  }

  /** The store records a batch writes: only nodes with a standalone hash,
      each under that hash with its persisted encoding. */
  function HashedRecords(nodes: seq<Node>, hashOf: Node -> NodeHash): (r: seq<(NodeHash, seq<byte>)>)
    requires forall n :: n in nodes ==> Encodable(n)
    ensures forall e :: e in r ==> e.0.Hashed? && exists n :: n in nodes && e == (hashOf(n), Encode(n, hashOf))
    ensures forall n :: n in nodes && hashOf(n).Hashed? ==> (hashOf(n), Encode(n, hashOf)) in r
  {
    if nodes == [] then []
    else
      var n := nodes[0];
      var head := if hashOf(n).Hashed? then [(hashOf(n), Encode(n, hashOf))] else [];
      head + HashedRecords(nodes[1..], hashOf)
  }

  /** `put_batch`: entries written in order into the keyed store. */
  function Upsert<K, V>(m: map<K, V>, entries: seq<(K, V)>): (r: map<K, V>)
    ensures r.Keys == m.Keys + set e | e in entries :: e.0
    ensures forall k :: k in m && (forall e :: e in entries ==> e.0 != k) ==> r[k] == m[k]
    decreases |entries|
  {
    if entries == [] then m else Upsert(m[entries[0].0 := entries[0].1], entries[1..])
  }

  /** A key written with only one value holds that value after the write. */
  lemma {:induction false} UpsertValues<K, V>(m: map<K, V>, entries: seq<(K, V)>)
    ensures forall e :: e in entries && (forall e' :: e' in entries && e'.0 == e.0 ==> e'.1 == e.1) ==>
      Upsert(m, entries)[e.0] == e.1
    decreases |entries|
  {
    if entries != [] {
      UpsertValues(m[entries[0].0 := entries[0].1], entries[1..]);
    }
  }

  /** Every visited node is one of the fetched nodes. */
  lemma VisitedWereFetched(nodes: seq<Node>, batch: seq<Nibbles>, o: Oracles, v: StoreView)
    requires ScanNodes(nodes, batch, o, v).Ok?
    ensures forall w :: w in ScanNodes(nodes, batch, o, v).value.visits ==> w.node in nodes
  {
    var visits := ScanNodes(nodes, batch, o, v).value.visits;
    forall w | w in visits
      ensures w.node in nodes
    {
      var i :| 0 <= i < |visits| && visits[i] == w;
    }
  }

  /** Writing the hashed records of fetched nodes only adds keys, every key
      it adds is a hash, and every fetched node with a hash is then stored. */
  lemma StoreHashedNodes(m: map<NodeHash, seq<byte>>, nodes: seq<Node>, hashOf: Node -> NodeHash)
    requires forall n :: n in nodes ==> Encodable(n)
    ensures var m' := Upsert(m, HashedRecords(nodes, hashOf));
      && m.Keys <= m'.Keys
      && (forall k :: k in m' && k !in m ==> k.Hashed?)
      && (forall n :: n in nodes && hashOf(n).Hashed? ==> hashOf(n) in m')
      && (forall n :: n in nodes && hashOf(n).Hashed? && Unambiguous(nodes, hashOf, n) ==>
            m'[hashOf(n)] == Encode(n, hashOf))
  {
    var records := HashedRecords(nodes, hashOf);
    var m' := Upsert(m, records);
    UpsertValues(m, records);
    forall n | n in nodes && hashOf(n).Hashed?
      ensures hashOf(n) in m'
      ensures Unambiguous(nodes, hashOf, n) ==> m'[hashOf(n)] == Encode(n, hashOf)
    {
      var e := (hashOf(n), Encode(n, hashOf));
      assert e in records;
      if Unambiguous(nodes, hashOf, n) {
        forall e' | e' in records && e'.0 == e.0
          ensures e'.1 == e.1
        {
          var n' :| n' in nodes && e' == (hashOf(n'), Encode(n', hashOf));
        }
      }
    }
  }

  /** Every fetched node sharing `n`'s hash has `n`'s encoding, so the
      record written under that hash is `n`'s whichever of them comes last. */
  predicate Unambiguous(nodes: seq<Node>, hashOf: Node -> NodeHash, n: Node)
    requires forall n' :: n' in nodes ==> Encodable(n')
    requires n in nodes
  {
    forall n' :: n' in nodes && hashOf(n') == hashOf(n) ==> Encode(n', hashOf) == Encode(n, hashOf)
  }

  /** Storage heal paths for newly found accounts: each starts at its root. */
  function SeedEmptyPath(accounts: seq<Hash32>): seq<(Hash32, seq<Nibbles>)>
  {
    seq(|accounts|, i requires 0 <= i < |accounts| => (accounts[i], [[]]))
  }

  /** What one batch hands back: the paths for the next round and whether
      the peers failed to answer (the pivot went stale). */
  type BatchResult = Result<(seq<Nibbles>, bool), SyncError>

  /** The batches of a round laid end to end. */
  function Flatten(batches: seq<seq<Nibbles>>): seq<Nibbles>
  {
    if batches == [] then [] else Flatten(batches[..|batches| - 1]) + batches[|batches| - 1]
  }

  lemma FlattenSnoc(batches: seq<seq<Nibbles>>, b: seq<Nibbles>)
    ensures Flatten(batches + [b]) == Flatten(batches) + b
  {
    assert (batches + [b])[..|batches|] == batches;
  }

  lemma FlattenPrefix(batches: seq<seq<Nibbles>>, j: nat)
    requires j < |batches|
    ensures Flatten(batches[..j + 1]) == Flatten(batches[..j]) + batches[j]
  {
    assert batches[..j + 1] == batches[..j] + [batches[j]];
    FlattenSnoc(batches[..j], batches[j]);
  }

  predicate AllOk(results: seq<BatchResult>)
  {
    forall i :: 0 <= i < |results| ==> results[i].Ok?
  }

  /** Some batch of the round came back without an answer. */
  predicate AnyStale(results: seq<BatchResult>)
  {
    exists i :: 0 <= i < |results| && results[i].Ok? && results[i].value.1
  }

  /** The paths the successful batches of a round hand back, in batch order. */
  function ReturnedPaths(results: seq<BatchResult>): seq<Nibbles>
  {
    if results == [] then []
    else
      var last := results[|results| - 1];
      ReturnedPaths(results[..|results| - 1]) + (if last.Ok? then last.value.0 else [])
  }

  /** One more batch result: how the round's verdicts and returned paths
      extend. */
  lemma ResultsSnoc(results: seq<BatchResult>, r: BatchResult)
    ensures AllOk(results + [r]) <==> AllOk(results) && r.Ok?
    ensures AnyStale(results + [r]) <==> AnyStale(results) || (r.Ok? && r.value.1)
    ensures ReturnedPaths(results + [r]) == ReturnedPaths(results) + (if r.Ok? then r.value.0 else [])
  {
    var longer := results + [r];
    assert longer[..|results|] == results;
    assert longer[|results|] == r;
    if AnyStale(longer) && !(r.Ok? && r.value.1) {
      var i :| 0 <= i < |longer| && longer[i].Ok? && longer[i].value.1;
      assert results[i] == longer[i];
    }
  }

  /** A batch's queue identity, summed over a round: the paths drained plus
      the children found are the paths handed back plus the paths visited. */
  lemma {:induction false} RoundConserves(drained: seq<Nibbles>, b: seq<Nibbles>, visits: seq<Visit>, vs: seq<Visit>,
                                          returned: seq<Nibbles>, back: seq<Nibbles>)
    requires multiset(drained) + multiset(ChildrenOf(visits)) == multiset(returned) + multiset(PathsOf(visits))
    requires b + ChildrenOf(vs) == PathsOf(vs) + back
    ensures multiset(drained + b) + multiset(ChildrenOf(visits + vs))
         == multiset(returned + back) + multiset(PathsOf(visits + vs))
  {
    ChildrenOfAppend(visits, vs);
    PathsOfAppend(visits, vs);
    assert multiset(b) + multiset(ChildrenOf(vs)) == multiset(PathsOf(vs)) + multiset(back) by {
      assert multiset(b + ChildrenOf(vs)) == multiset(PathsOf(vs) + back);
    }
    assert multiset(drained + b) == multiset(drained) + multiset(b);
    assert multiset(returned + back) == multiset(returned) + multiset(back);
    assert multiset(ChildrenOf(visits + vs)) == multiset(ChildrenOf(visits)) + multiset(ChildrenOf(vs));
    assert multiset(PathsOf(visits + vs)) == multiset(PathsOf(visits)) + multiset(PathsOf(vs));
    var lhs := multiset(drained + b) + multiset(ChildrenOf(visits + vs));
    var rhs := multiset(returned + back) + multiset(PathsOf(visits + vs));
    forall x
      ensures lhs[x] == rhs[x]
    {
      assert (multiset(drained) + multiset(ChildrenOf(visits)))[x] == (multiset(returned) + multiset(PathsOf(visits)))[x];
      assert (multiset(b) + multiset(ChildrenOf(vs)))[x] == (multiset(PathsOf(vs)) + multiset(back))[x];
    }
  }

  /** A round's batches are drained from the front of the queue and their
      returned paths are queued behind what was left: summed over the round,
      the queue before plus the children found is the queue after plus the
      paths visited. */
  lemma {:induction false} RoundMerge(batches: seq<seq<Nibbles>>, rest: seq<Nibbles>, roundVisits: seq<Visit>, returned: seq<Nibbles>)
    requires multiset(Flatten(batches)) + multiset(ChildrenOf(roundVisits)) == multiset(returned) + multiset(PathsOf(roundVisits))
    ensures multiset(Flatten(batches) + rest) + multiset(ChildrenOf(roundVisits))
         == multiset(rest + returned) + multiset(PathsOf(roundVisits))
  {
    assert multiset(Flatten(batches) + rest) == multiset(Flatten(batches)) + multiset(rest);
    assert multiset(rest + returned) == multiset(rest) + multiset(returned);
    var lhs := multiset(Flatten(batches) + rest) + multiset(ChildrenOf(roundVisits));
    var rhs := multiset(rest + returned) + multiset(PathsOf(roundVisits));
    forall x
      ensures lhs[x] == rhs[x]
    {
      assert (multiset(Flatten(batches)) + multiset(ChildrenOf(roundVisits)))[x] == (multiset(returned) + multiset(PathsOf(roundVisits)))[x];
    }
  }

  /** The healing conservation law carries over a round: the paths ever
      queued plus the children found equal the paths still queued plus the
      paths visited. */
  lemma {:induction false} ConservationStep(seeded: seq<Nibbles>, visited: seq<Visit>, queue: seq<Nibbles>,
                                            roundVisits: seq<Visit>, queue': seq<Nibbles>)
    requires multiset(seeded) + multiset(ChildrenOf(visited)) == multiset(queue) + multiset(PathsOf(visited))
    requires multiset(queue) + multiset(ChildrenOf(roundVisits)) == multiset(queue') + multiset(PathsOf(roundVisits))
    ensures multiset(seeded) + multiset(ChildrenOf(visited + roundVisits))
         == multiset(queue') + multiset(PathsOf(visited + roundVisits))
  {
    ChildrenOfAppend(visited, roundVisits);
    PathsOfAppend(visited, roundVisits);
    assert multiset(ChildrenOf(visited + roundVisits)) == multiset(ChildrenOf(visited)) + multiset(ChildrenOf(roundVisits));
    assert multiset(PathsOf(visited + roundVisits)) == multiset(PathsOf(visited)) + multiset(PathsOf(roundVisits));
    var lhs := multiset(seeded) + multiset(ChildrenOf(visited + roundVisits));
    var rhs := multiset(queue') + multiset(PathsOf(visited + roundVisits));
    forall x
      ensures lhs[x] == rhs[x]
    {
      assert (multiset(seeded) + multiset(ChildrenOf(visited)))[x] == (multiset(queue) + multiset(PathsOf(visited)))[x];
      assert (multiset(queue) + multiset(ChildrenOf(roundVisits)))[x] == (multiset(queue') + multiset(PathsOf(roundVisits)))[x];
    }
  }
}
