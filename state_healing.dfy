/** State-trie healing: the work queue of trie paths driven round by round
    (`heal_state_trie`) and the batch fetcher that pairs fetched nodes with
    paths, stores them and raises storage and bytecode work
    (`heal_state_batch`). The concurrent batches of a round run one after the
    other here; they work on disjoint slices and are all joined before their
    results are merged. */
module StateHealing {
  import opened Common
  import opened TrieCodec
  import opened HealingSpec
  import opened HealingRun

  /** The parts of the node's store that healing reads and writes. */
  class Store {
    /** the persisted heal-path checkpoint */
    var stateHealPaths: Option<seq<Nibbles>>
    /** state trie node records keyed by hash */
    var trieNodes: map<NodeHash, seq<byte>>
    /** pending storage healing, per account hash */
    var storageHealPaths: map<Hash32, seq<Nibbles>>
    /** (account hash, storage root) pairs whose storage root is stored */
    var storageNodes: set<(Hash32, Hash32)>
    /** hashes of stored bytecode */
    var codes: set<Hash32>

    function View(): StoreView
      reads this
    {
      StoreView(trieNodes, storageNodes, codes)
    }

    method SetStateHealPaths(paths: seq<Nibbles>)
      modifies this`stateHealPaths
      ensures stateHealPaths == Some(paths)
    {
      stateHealPaths := Some(paths);
    }

    method PutBatch(records: seq<(NodeHash, seq<byte>)>)
      modifies this`trieNodes
      ensures trieNodes == Upsert(old(trieNodes), records)
    {
      trieNodes := Upsert(trieNodes, records);
    }

    method SetStorageHealPaths(entries: seq<(Hash32, seq<Nibbles>)>)
      modifies this`storageHealPaths
      ensures storageHealPaths == Upsert(old(storageHealPaths), entries)
    {
      storageHealPaths := Upsert(storageHealPaths, entries);
    }
  }

  /** The peer layer, as the finite sequence of answers it will give. An
      exhausted peer layer answers `None`, as when every peer refuses. */
  class PeerHandler {
    var responses: seq<Option<seq<Node>>>
    /** every request made, with the root it was made against */
    var requests: seq<(Hash32, seq<Nibbles>)>

    /** Peers deliver nodes that can be stored. */
    ghost predicate Valid()
      reads this
    {
      Deliverable(responses)
    }

    method RequestStateTrienodes(root: Hash32, paths: seq<Nibbles>) returns (nodes: Option<seq<Node>>)
      requires Valid()
      modifies this
      ensures Valid()
      ensures nodes == NextAnswer(old(responses)) && responses == AfterAnswer(old(responses))
      ensures requests == old(requests) + [(root, paths)]
      ensures nodes.Some? ==> forall n :: n in nodes.value ==> Encodable(n)
    {
      requests := requests + [(root, paths)];
      if responses == [] {
        nodes := None;
      } else {
        nodes := responses[0];
        responses := responses[1..];
      }
    }
  }

  /** The bounded channel to the bytecode fetcher: every batch sent on it. */
  class BytecodeChannel {
    var sent: seq<seq<Hash32>>

    method Send(hashes: seq<Hash32>)
      modifies this
      ensures sent == old(sent) + [hashes]
    {
      sent := sent + [hashes];
    }
  }

  /** The loop of `heal_state_batch` over the fetched nodes: pair each node
      with the front path, queue its missing children behind the batch and,
      for a leaf, check its key and collect its storage and code work. */
  method WalkNodes(nodes: seq<Node>, batch: seq<Nibbles>, o: Oracles, view: StoreView)
    returns (r: Result<(seq<Nibbles>, seq<Hash32>, seq<Hash32>), SyncError>, ghost visits: seq<Visit>)
    ensures r.Err? <==> ScanNodes(nodes, batch, o, view).Err?
    ensures r.Err? ==> r.error == ScanNodes(nodes, batch, o, view).error
    ensures r.Ok? ==>
      var s := ScanNodes(nodes, batch, o, view).value;
      r.value == (s.batch, s.hashedAddresses, s.codeHashes) && visits == s.visits
  {
    var queue := batch;
    var hashedAddresses: seq<Hash32> := [];
    var codeHashes: seq<Hash32> := [];
    visits := [];
    for i := 0 to |nodes|
      invariant ScanNodes(nodes[..i], batch, o, view) == Ok(Scan(queue, hashedAddresses, codeHashes, visits))
    {
      ScanExtends(nodes, i, batch, o, view);
      ghost var before := Scan(queue, hashedAddresses, codeHashes, visits);
      var node := nodes[i];
      if queue == [] {
        ScanErrorPersists(nodes, i + 1, batch, o, view);
        return Err(PathsExhausted), [];
      }
      var path := queue[0];
      var children := o.missingChildren(node, path, view.trieNodes);
      queue := queue[1..] + children;
      visits := visits + [Visit(path, node, children)];
      if node.Leaf? {
        var account := o.decodeAccount(node.value);
        if account.None? {
          ScanErrorPersists(nodes, i + 1, batch, o, view);
          return Err(AccountDecode), [];
        }
        var key := AccountKey(path, node, o);
        if |key| != 32 {
          ScanErrorPersists(nodes, i + 1, batch, o, view);
          return Err(CorruptPath), [];
        }
        var storage: seq<Hash32> := if NeedsStorageHealing(account.value, key, view) then [key] else [];
        var code := if NeedsBytecode(account.value, view) then [account.value.codeHash] else [];
        hashedAddresses := hashedAddresses + storage;
        codeHashes := codeHashes + code;
        assert Step(before, node, o, view) == Ok(Scan(queue, hashedAddresses, codeHashes, visits));
      }
    }
    assert nodes[..|nodes|] == nodes;
    r := Ok((queue, hashedAddresses, codeHashes));
  }

  /** The part of `heal_state_batch` after the peers answered: walk the
      nodes, then store the hashed ones and hand out storage and bytecode
      work. On an error nothing is written. */
  method ProcessNodes(nodes: seq<Node>, batch: seq<Nibbles>, store: Store, bytecode: BytecodeChannel, o: Oracles)
    returns (r: BatchResult, ghost visits: seq<Visit>)
    requires forall n :: n in nodes ==> Encodable(n)
    modifies store`trieNodes, store`storageHealPaths, bytecode
    ensures old(store.trieNodes).Keys <= store.trieNodes.Keys
    ensures forall k :: k in store.trieNodes && k !in old(store.trieNodes) ==> k.Hashed?
    ensures var scan := ScanNodes(nodes, batch, o, old(store.View()));
      scan.Err? ==>
        && r == Err(scan.error) && visits == []
        && store.trieNodes == old(store.trieNodes)
        && store.storageHealPaths == old(store.storageHealPaths)
        && bytecode.sent == old(bytecode.sent)
    ensures var scan := ScanNodes(nodes, batch, o, old(store.View()));
      scan.Ok? ==>
        && r == Ok((scan.value.batch, false)) && visits == scan.value.visits
        && store.trieNodes == Upsert(old(store.trieNodes), HashedRecords(nodes, o.hashOf))
        && store.storageHealPaths == Upsert(old(store.storageHealPaths), SeedEmptyPath(scan.value.hashedAddresses))
        && bytecode.sent == old(bytecode.sent) + (if scan.value.codeHashes == [] then [] else [scan.value.codeHashes])
    ensures r.Ok? ==> forall w :: w in visits && o.hashOf(w.node).Hashed? ==> o.hashOf(w.node) in store.trieNodes
  {
    var walked;
    walked, visits := WalkNodes(nodes, batch, o, store.View());
    if walked.Err? {
      return Err(walked.error), [];
    }
    var (queue, hashedAddresses, codeHashes) := walked.value;
    VisitedWereFetched(nodes, batch, o, store.View());
    WriteBatch(nodes, hashedAddresses, codeHashes, store, bytecode, o.hashOf);
    r := Ok((queue, false));
  }

  /** The writes of a processed batch: the fetched nodes that have a
      standalone hash go to the trie table, the accounts whose storage is
      missing are queued for storage healing at the empty path, and the
      code hashes, when there are any, go to the bytecode fetcher. */
  method WriteBatch(nodes: seq<Node>, hashedAddresses: seq<Hash32>, codeHashes: seq<Hash32>, store: Store,
                    bytecode: BytecodeChannel, hashOf: Node -> NodeHash)
    requires forall n :: n in nodes ==> Encodable(n)
    modifies store`trieNodes, store`storageHealPaths, bytecode
    ensures store.trieNodes == Upsert(old(store.trieNodes), HashedRecords(nodes, hashOf))
    ensures store.storageHealPaths == Upsert(old(store.storageHealPaths), SeedEmptyPath(hashedAddresses))
    ensures bytecode.sent == old(bytecode.sent) + (if codeHashes == [] then [] else [codeHashes])
    ensures old(store.trieNodes).Keys <= store.trieNodes.Keys
    ensures forall k :: k in store.trieNodes && k !in old(store.trieNodes) ==> k.Hashed?
    ensures forall n :: n in nodes && hashOf(n).Hashed? ==> hashOf(n) in store.trieNodes
  {
    StoreHashedNodes(store.trieNodes, nodes, hashOf);
    store.PutBatch(HashedRecords(nodes, hashOf));
    if hashedAddresses != [] {
      store.SetStorageHealPaths(SeedEmptyPath(hashedAddresses));
    }
    if codeHashes != [] {
      bytecode.Send(codeHashes);
    }
  }

  /** The world as the healing objects hold it. */
  function Snapshot(peers: PeerHandler, store: Store, bytecode: BytecodeChannel): World
    reads peers, store, bytecode
  {
    World(peers.responses, peers.requests, store.trieNodes, store.storageHealPaths, bytecode.sent)
  }

  /** What a healing run against `root` reads from the store and never
      changes. */
  function EnvOf(root: Hash32, o: Oracles, store: Store): Env
    reads store
  {
    Env(root, o, store.storageNodes, store.codes)
  }

  /** `heal_state_batch`: request the nodes for `batch` from the peers; with
      no answer the batch comes back untouched and marked stale, otherwise the
      nodes are processed. */
  method HealStateBatch(stateRoot: Hash32, batch: seq<Nibbles>, peers: PeerHandler, store: Store,
                        bytecode: BytecodeChannel, o: Oracles)
    returns (r: BatchResult, ghost visits: seq<Visit>)
    requires peers.Valid()
    modifies peers, store`trieNodes, store`storageHealPaths, bytecode
    ensures peers.Valid()
    ensures var run := Batch(EnvOf(stateRoot, o, store), old(Snapshot(peers, store, bytecode)), batch);
      r == run.result && visits == run.visits && Snapshot(peers, store, bytecode) == run.world
    ensures NextAnswer(old(peers.responses)).None? || r.Err? ==>
      && visits == []
      && store.trieNodes == old(store.trieNodes)
      && store.storageHealPaths == old(store.storageHealPaths)
      && bytecode.sent == old(bytecode.sent)
  {
    BatchNoWrites(EnvOf(stateRoot, o, store), Snapshot(peers, store, bytecode), batch);
    var answer := peers.RequestStateTrienodes(stateRoot, batch);
    if answer.None? {
      return Ok((batch, true)), [];
    }
    r, visits := ProcessNodes(answer.value, batch, store, bytecode, o);
  }

  /** The spawning loop of a round: up to `maxParallelFetches` slices of at
      most `nodeBatchSize` paths are drained from the front of the queue,
      stopping once the queue is empty. */
  method DrainBatches(paths: seq<Nibbles>, cfg: Config) returns (batches: seq<seq<Nibbles>>, rest: seq<Nibbles>)
    ensures Drained(batches, rest) == DrainQueue(paths, cfg)
  {
    batches := [];
    rest := paths;
    for k := 0 to cfg.maxParallelFetches
      invariant var d := Drain(rest, cfg.nodeBatchSize, cfg.maxParallelFetches - k);
        DrainQueue(paths, cfg) == Drained(batches + d.batches, d.rest)
    {
      var n := if |rest| < cfg.nodeBatchSize then |rest| else cfg.nodeBatchSize;
      var batch := rest[..n];
      DrainAdvance(batches, rest, cfg.nodeBatchSize, cfg.maxParallelFetches - k);
      batches := batches + [batch];
      rest := rest[n..];
      if rest == [] {
        return;
      }
    }
    assert batches + [] == batches;
  }

  /** Run the batches of one round against the store. They are joined in
      spawn order; every batch runs even when an earlier one failed. */
  method RunRound(stateRoot: Hash32, batches: seq<seq<Nibbles>>, peers: PeerHandler, store: Store,
                  bytecode: BytecodeChannel, o: Oracles)
    returns (results: seq<BatchResult>, ghost visits: seq<Visit>)
    requires peers.Valid()
    modifies peers, store`trieNodes, store`storageHealPaths, bytecode
    ensures peers.Valid()
    ensures var run := Round(EnvOf(stateRoot, o, store), old(Snapshot(peers, store, bytecode)), batches);
      results == run.results && visits == run.visits && Snapshot(peers, store, bytecode) == run.world
  {
    ghost var env := EnvOf(stateRoot, o, store);
    ghost var start := Snapshot(peers, store, bytecode);
    results := [];
    visits := [];
    for j := 0 to |batches|
      invariant peers.Valid()
      invariant Round(env, start, batches[..j]) == RoundRun(results, visits, Snapshot(peers, store, bytecode))
    {
      RoundPrefix(env, start, batches, j);
      var r, vs := HealStateBatch(stateRoot, batches[j], peers, store, bytecode, o);
      results := results + [r];
      visits := visits + vs;
    }
    assert batches[..|batches|] == batches;
  }

  /** Merge a round's results into the queue in batch order: the first
      failed batch aborts, otherwise every returned path is queued and the
      stale flags are or-ed. */
  method MergeResults(paths: seq<Nibbles>, results: seq<BatchResult>) returns (r: Result<(seq<Nibbles>, bool), SyncError>)
    ensures r == Merge(paths, results)
  {
    var queue := paths;
    var stale := false;
    FirstErrorExact(results);
    for i := 0 to |results|
      invariant AllOk(results[..i])
      invariant queue == paths + ReturnedPaths(results[..i])
      invariant stale == AnyStale(results[..i])
    {
      assert results[..i + 1] == results[..i] + [results[i]];
      if results[i].Err? {
        return Err(results[i].error);
      }
      ResultsSnoc(results[..i], results[i]);
      var (returned, isStale) := results[i].value;
      stale := stale || isStale;
      queue := queue + returned;
    }
    assert results[..|results|] == results;
    r := Ok((queue, stale));
  }

  /** One round of `heal_state_trie`: drain the batches, run them, merge
      their results behind what was left in the queue. */
  method HealRound(stateRoot: Hash32, paths: seq<Nibbles>, store: Store, peers: PeerHandler,
                   bytecode: BytecodeChannel, o: Oracles, cfg: Config)
    returns (merged: Result<(seq<Nibbles>, bool), SyncError>, results: seq<BatchResult>, ghost roundVisits: seq<Visit>)
    requires peers.Valid()
    modifies peers, store`trieNodes, store`storageHealPaths, bytecode
    ensures peers.Valid()
    ensures var d := DrainQueue(paths, cfg);
      var run := Round(EnvOf(stateRoot, o, store), old(Snapshot(peers, store, bytecode)), d.batches);
      && results == run.results && roundVisits == run.visits && Snapshot(peers, store, bytecode) == run.world
      && merged == Merge(d.rest, run.results)
  {
    var batches, rest := DrainBatches(paths, cfg);
    results, roundVisits := RunRound(stateRoot, batches, peers, store, bytecode, o);
    merged := MergeResults(rest, results);
  }

  /** The round loop of `heal_state_trie`: heal until the queue is empty,
      a round fails or a round went stale. */
  method HealRounds(stateRoot: Hash32, seeded: seq<Nibbles>, store: Store, peers: PeerHandler,
                    bytecode: BytecodeChannel, o: Oracles, cfg: Config)
    returns (paths: seq<Nibbles>, failure: Option<SyncError>, ghost visited: seq<Visit>, ghost lastRound: seq<BatchResult>)
    requires peers.Valid() && Positive(cfg)
    modifies peers, store`trieNodes, store`storageHealPaths, bytecode
    ensures peers.Valid()
    ensures var run := Rounds(EnvOf(stateRoot, o, store), cfg, seeded, old(Snapshot(peers, store, bytecode)), [], []);
      && paths == run.paths && failure == run.failure && visited == run.visited && lastRound == run.lastRound
      && Snapshot(peers, store, bytecode) == run.world
  {
    ghost var env := EnvOf(stateRoot, o, store);
    ghost var start := Snapshot(peers, store, bytecode);
    ghost var run := Rounds(env, cfg, seeded, start, [], []);
    paths := seeded;
    failure := None;
    visited := [];
    lastRound := [];
    var stale := false;
    while paths != [] && failure.None? && !stale
      invariant peers.Valid()
      invariant failure.None? && !stale ==>
        run == Rounds(env, cfg, paths, Snapshot(peers, store, bytecode), visited, lastRound)
      invariant failure.Some? || stale ==> run == HealRun(paths, failure, visited, lastRound, Snapshot(peers, store, bytecode))
      decreases |peers.responses|, if failure.None? && !stale then 1 else 0
    {
      ghost var before := Snapshot(peers, store, bytecode);
      RoundConsumes(env, cfg, paths, before);
      var merged, results, roundVisits := HealRound(stateRoot, paths, store, peers, bytecode, o, cfg);
      lastRound := results;
      if merged.Err? {
        failure := Some(merged.error);
      } else {
        paths := merged.value.0;
        visited := visited + roundVisits;
        stale := merged.value.1;
      }
    }
  }

  /** `heal_state_trie`: resume from the persisted heal paths plus the root
      path and heal round by round until the queue is empty or a round went
      stale; persist what is left, then tell the bytecode fetcher that no
      more batches follow. The result says whether healing is complete.
      `seeded` is the starting queue, `remaining` the queue at the end,
      `visited` every path paired with a fetched node and `lastRound` the
      results of the last round. */
  method HealStateTrie(stateRoot: Hash32, store: Store, peers: PeerHandler, bytecode: BytecodeChannel,
                       o: Oracles, cfg: Config)
    returns (r: Result<bool, SyncError>, ghost seeded: seq<Nibbles>, ghost remaining: seq<Nibbles>,
             ghost visited: seq<Visit>, ghost lastRound: seq<BatchResult>)
    requires peers.Valid() && Positive(cfg)
    modifies peers, store`trieNodes, store`storageHealPaths, store`stateHealPaths, bytecode
    ensures seeded == old(store.stateHealPaths).GetOr([]) + [[]]
    ensures var run := Rounds(EnvOf(stateRoot, o, store), cfg, seeded, old(Snapshot(peers, store, bytecode)), [], []);
      && remaining == run.paths && visited == run.visited && lastRound == run.lastRound
      && peers.responses == run.world.responses && peers.requests == run.world.requests
      && store.trieNodes == run.world.trieNodes && store.storageHealPaths == run.world.storageHealPaths
      && (run.failure.Some? ==> r == Err(run.failure.value) && bytecode.sent == run.world.sent)
      && (run.failure.None? ==> r == Ok(run.paths == []) && bytecode.sent == run.world.sent + [[]])
    ensures r.Ok? ==> store.stateHealPaths == if remaining == [] then old(store.stateHealPaths) else Some(remaining)
    ensures r.Err? ==> store.stateHealPaths == old(store.stateHealPaths)
    // what the lemmas about `Rounds` give for this run
    ensures multiset(seeded) + multiset(ChildrenOf(visited)) == multiset(remaining) + multiset(PathsOf(visited))
    ensures r.Ok? && remaining != [] ==> AnyStale(lastRound)
    ensures r.Err? ==> FirstError(lastRound) == Some(r.error)
    ensures old(store.trieNodes).Keys <= store.trieNodes.Keys
    ensures forall k :: k in store.trieNodes && k !in old(store.trieNodes) ==> k.Hashed?
    ensures forall w :: w in visited && o.hashOf(w.node).Hashed? ==> o.hashOf(w.node) in store.trieNodes
    ensures VisitsAmong(visited, Delivered(old(peers.responses)))
    ensures |old(peers.requests)| <= |peers.requests| && AgainstRoot(stateRoot, peers.requests[|old(peers.requests)|..])
  {
    ghost var env := EnvOf(stateRoot, o, store);
    ghost var start := Snapshot(peers, store, bytecode);
    var queue := store.stateHealPaths.GetOr([]) + [[]];
    seeded := queue;
    RoundsLaws(env, cfg, seeded, start);
    var paths, failure;
    paths, failure, visited, lastRound := HealRounds(stateRoot, queue, store, peers, bytecode, o, cfg);
    remaining := paths;
    if failure.Some? {
      return Err(failure.value), seeded, remaining, visited, lastRound;
    }
    if paths != [] {
      store.SetStateHealPaths(paths);
    }
    bytecode.Send([]);
    r := Ok(paths == []);
  }
}
