/** The value-level description of a whole state-healing run: one batch
    (`heal_state_batch`) against the world the batches before it left, the
    batches of a round in spawn order, the draining of the queue into a
    round's batches, the merge of a round's results, and the round loop of
    `heal_state_trie`. The methods of `StateHealing` compute exactly these;
    the laws of healing are proved here about them. */
module HealingRun {
  import opened Common
  import opened TrieCodec
  import opened HealingSpec

  /** `MAX_PARALLEL_FETCHES` and `NODE_BATCH_SIZE`. */
  datatype Config = Config(maxParallelFetches: nat, nodeBatchSize: nat)

  predicate Positive(cfg: Config)
  {
    cfg.maxParallelFetches > 0 && cfg.nodeBatchSize > 0
  }

  /** What healing reads but never changes: the root it heals against, the
      collaborators, and the storage roots and codes already stored. */
  datatype Env = Env(root: Hash32, o: Oracles, storageNodes: set<(Hash32, Hash32)>, codes: set<Hash32>)

  /** What healing changes: the answers the peers still have to give, the
      requests made so far, the trie table, the storage heal queue and the
      batches sent to the bytecode fetcher. */
  datatype World = World(
    responses: seq<Option<seq<Node>>>,
    requests: seq<(Hash32, seq<Nibbles>)>,
    trieNodes: map<NodeHash, seq<byte>>,
    storageHealPaths: map<Hash32, seq<Nibbles>>,
    sent: seq<seq<Hash32>>)

  function ViewIn(env: Env, w: World): StoreView
  {
    StoreView(w.trieNodes, env.storageNodes, env.codes)
  }

  function Min(a: nat, b: nat): nat
  {
    if a <= b then a else b
  }

  /** Peers deliver nodes that can be stored. */
  predicate Deliverable(responses: seq<Option<seq<Node>>>)
  {
    forall i, n :: 0 <= i < |responses| && responses[i].Some? && n in responses[i].value ==> Encodable(n)
  }

  /** The answer to the next request: `None` once the peers have nothing. */
  function NextAnswer(responses: seq<Option<seq<Node>>>): (r: Option<seq<Node>>)
    ensures Deliverable(responses) && r.Some? ==> forall n :: n in r.value ==> Encodable(n)
  {
    if responses == [] then None else responses[0]
  }

  /** The answers left after one request. */
  function AfterAnswer(responses: seq<Option<seq<Node>>>): (r: seq<Option<seq<Node>>>)
    ensures Deliverable(responses) ==> Deliverable(r)
  {
    if responses == [] then [] else responses[1..]
  }

  /** The nodes handed out in a sequence of answers. */
  function Delivered(responses: seq<Option<seq<Node>>>): set<Node>
  {
    set i, n | 0 <= i < |responses| && responses[i].Some? && n in responses[i].value :: n
  }

  lemma DeliveredSuffix(responses: seq<Option<seq<Node>>>, k: nat)
    requires k <= |responses|
    ensures Delivered(responses[k..]) <= Delivered(responses)
  {
    forall n | n in Delivered(responses[k..])
      ensures n in Delivered(responses)
    {
      var i :| 0 <= i < |responses[k..]| && responses[k..][i].Some? && n in responses[k..][i].value;
      assert responses[k + i] == responses[k..][i];
    }
  }

  /** Every request in `requests` was made against `root`. */
  predicate AgainstRoot(root: Hash32, requests: seq<(Hash32, seq<Nibbles>)>)
  {
    forall q :: q in requests ==> q.0 == root
  }

  /** The requests a round makes, one per batch, in batch order. A helper
      naming the request log `RoundAnswers` states; its own contract is only
      the closed form. */
  function Requests(root: Hash32, batches: seq<seq<Nibbles>>): (r: seq<(Hash32, seq<Nibbles>)>)
    ensures |r| == |batches|
    ensures forall i :: 0 <= i < |batches| ==> r[i] == (root, batches[i])
  {
    if batches == [] then [] else Requests(root, batches[..|batches| - 1]) + [(root, batches[|batches| - 1])]
  }

  // ---------------------------------------------------------------------
  // One batch

  /** What one batch leaves behind: its result, the pairings it made and
      the changed world. */
  datatype BatchRun = BatchRun(result: BatchResult, visits: seq<Visit>, world: World)

  /** `heal_state_batch`: ask the peers for the batch's nodes against the
      root. With no answer the batch comes back untouched and marked stale.
      Otherwise the nodes are walked against the trie table as it stands; a
      failed walk writes nothing, a successful one stores the hashed nodes,
      queues the accounts with missing storage at the empty path and sends
      the code hashes, when there are any, to the bytecode fetcher. */
  function Batch(env: Env, w: World, batch: seq<Nibbles>): (r: BatchRun)
    requires Deliverable(w.responses)
    ensures Deliverable(r.world.responses)
    ensures r.world.responses == AfterAnswer(w.responses)
    ensures r.world.requests == w.requests + [(env.root, batch)]
    ensures NextAnswer(w.responses).None? ==> r.result == Ok((batch, true))
  {
    var asked := w.(responses := AfterAnswer(w.responses), requests := w.requests + [(env.root, batch)]);
    var answer := NextAnswer(w.responses);
    if answer.None? then BatchRun(Ok((batch, true)), [], asked)
    else
      var scan := ScanNodes(answer.value, batch, env.o, ViewIn(env, w));
      if scan.Err? then BatchRun(Err(scan.error), [], asked)
      else
        BatchRun(Ok((scan.value.batch, false)), scan.value.visits,
                 asked.(trieNodes := Upsert(w.trieNodes, HashedRecords(answer.value, env.o.hashOf)),
                        storageHealPaths := Upsert(w.storageHealPaths, SeedEmptyPath(scan.value.hashedAddresses)),
                        sent := w.sent + (if scan.value.codeHashes == [] then [] else [scan.value.codeHashes])))
  }

  /** A batch is marked stale exactly when the peers gave no answer. */
  lemma BatchStale(env: Env, w: World, batch: seq<Nibbles>)
    requires Deliverable(w.responses)
    ensures var r := Batch(env, w, batch);
      r.result.Ok? && r.result.value.1 <==> NextAnswer(w.responses).None?
  {
  }

  /** A batch the peers did not answer, or whose walk failed, visits
      nothing and leaves the trie table, the storage heal queue and the
      bytecode messages as they were. */
  lemma BatchNoWrites(env: Env, w: World, batch: seq<Nibbles>)
    requires Deliverable(w.responses)
    ensures var r := Batch(env, w, batch);
      NextAnswer(w.responses).None? || r.result.Err? ==>
        && r.visits == []
        && r.world.trieNodes == w.trieNodes
        && r.world.storageHealPaths == w.storageHealPaths
        && r.world.sent == w.sent
  {
  }

  /** A batch's queue identity: its paths plus the children it found are the
      paths it visited plus the paths it hands back. */
  lemma BatchQueue(env: Env, w: World, batch: seq<Nibbles>)
    requires Deliverable(w.responses)
    ensures var r := Batch(env, w, batch);
      r.result.Ok? ==> batch + ChildrenOf(r.visits) == PathsOf(r.visits) + r.result.value.0
  {
    var r := Batch(env, w, batch);
    if r.result.Ok? && r.visits == [] {
      assert ChildrenOf(r.visits) == [] && PathsOf(r.visits) == [];
    }
  }

  /** Every pairing a batch made joins a node of the answer it got with the
      children missing under it in the trie table as it stood. */
  lemma BatchVisits(env: Env, w: World, batch: seq<Nibbles>)
    requires Deliverable(w.responses)
    ensures var r := Batch(env, w, batch);
      forall v :: v in r.visits ==>
        && NextAnswer(w.responses).Some? && v.node in NextAnswer(w.responses).value
        && v.children == env.o.missingChildren(v.node, v.path, w.trieNodes)
  {
    var r := Batch(env, w, batch);
    forall v | v in r.visits
      ensures NextAnswer(w.responses).Some? && v.node in NextAnswer(w.responses).value
      ensures v.children == env.o.missingChildren(v.node, v.path, w.trieNodes)
    {
      var i :| 0 <= i < |r.visits| && r.visits[i] == v;
    }
  }

  /** A batch only adds keys to the trie table, every key it adds is a hash,
      and every node it visited that has a hash is then stored. */
  lemma BatchStores(env: Env, w: World, batch: seq<Nibbles>)
    requires Deliverable(w.responses)
    ensures var r := Batch(env, w, batch);
      && w.trieNodes.Keys <= r.world.trieNodes.Keys
      && (forall k :: k in r.world.trieNodes && k !in w.trieNodes ==> k.Hashed?)
      && (forall v :: v in r.visits && env.o.hashOf(v.node).Hashed? ==> env.o.hashOf(v.node) in r.world.trieNodes)
  {
    var answer := NextAnswer(w.responses);
    if answer.Some? && ScanNodes(answer.value, batch, env.o, ViewIn(env, w)).Ok? {
      StoreHashedNodes(w.trieNodes, answer.value, env.o.hashOf);
      VisitedWereFetched(answer.value, batch, env.o, ViewIn(env, w));
    }
  }

  // ---------------------------------------------------------------------
  // One round

  /** What a round leaves behind: the results of its batches in spawn
      order, their pairings laid end to end and the changed world. */
  datatype RoundRun = RoundRun(results: seq<BatchResult>, visits: seq<Visit>, world: World)

  /** The batches of one round, in spawn order, each against the world the
      batches before it left; every batch runs even when an earlier one
      failed. */
  function Round(env: Env, w: World, batches: seq<seq<Nibbles>>): (r: RoundRun)
    requires Deliverable(w.responses)
    ensures Deliverable(r.world.responses)
    ensures |r.results| == |batches|
  {
    if batches == [] then RoundRun([], [], w)
    else
      var prev := Round(env, w, batches[..|batches| - 1]);
      var b := Batch(env, prev.world, batches[|batches| - 1]);
      RoundRun(prev.results + [b.result], prev.visits + b.visits, b.world)
  }

  lemma RoundPrefix(env: Env, w: World, batches: seq<seq<Nibbles>>, j: nat)
    requires Deliverable(w.responses)
    requires j < |batches|
    ensures var prev := Round(env, w, batches[..j]);
      var b := Batch(env, prev.world, batches[j]);
      Round(env, w, batches[..j + 1]) == RoundRun(prev.results + [b.result], prev.visits + b.visits, b.world)
  {
    assert batches[..j + 1][..j] == batches[..j];
  }

  /** A round consumes one answer per batch and logs one request per batch
      against the root, in batch order; the batches past the last answer
      come back untouched and stale. */
  lemma RoundAnswers(env: Env, w: World, batches: seq<seq<Nibbles>>)
    requires Deliverable(w.responses)
    ensures var r := Round(env, w, batches);
      && r.world.responses == w.responses[Min(|batches|, |w.responses|)..]
      && r.world.requests == w.requests + Requests(env.root, batches)
      && (forall j :: |w.responses| <= j < |batches| ==> r.results[j] == Ok((batches[j], true)))
  {
    RoundResponses(env, w, batches);
    RoundRequests(env, w, batches);
    RoundPastAnswers(env, w, batches);
  }

  lemma {:induction false} RoundResponses(env: Env, w: World, batches: seq<seq<Nibbles>>)
    requires Deliverable(w.responses)
    ensures Round(env, w, batches).world.responses == w.responses[Min(|batches|, |w.responses|)..]
    decreases |batches|
  {
    if batches != [] {
      var k := |batches| - 1;
      RoundResponses(env, w, batches[..k]);
      var prev := Round(env, w, batches[..k]);
      if k < |w.responses| {
        assert prev.world.responses[1..] == w.responses[k + 1..];
      }
    }
  }

  lemma {:induction false} RoundRequests(env: Env, w: World, batches: seq<seq<Nibbles>>)
    requires Deliverable(w.responses)
    ensures Round(env, w, batches).world.requests == w.requests + Requests(env.root, batches)
    decreases |batches|
  {
    if batches != [] {
      RoundRequests(env, w, batches[..|batches| - 1]);
    }
  }

  lemma {:induction false} RoundPastAnswers(env: Env, w: World, batches: seq<seq<Nibbles>>)
    requires Deliverable(w.responses)
    ensures var r := Round(env, w, batches);
      forall j :: |w.responses| <= j < |batches| ==> r.results[j] == Ok((batches[j], true))
    decreases |batches|
  {
    if batches != [] {
      var k := |batches| - 1;
      RoundPastAnswers(env, w, batches[..k]);
      RoundResponses(env, w, batches[..k]);
      var prev := Round(env, w, batches[..k]);
      var r := Round(env, w, batches);
      forall j | |w.responses| <= j < |batches|
        ensures r.results[j] == Ok((batches[j], true))
      {
        if j < k {
          assert r.results[j] == prev.results[j];
          assert batches[..k][j] == batches[j];
        }
      }
    }
  }

  /** A round over at least one batch is the round over all but the last,
      then the last batch against the world those left. */
  lemma RoundSnoc(env: Env, w: World, batches: seq<seq<Nibbles>>)
    requires Deliverable(w.responses)
    requires batches != []
    ensures var k := |batches| - 1;
      var prev := Round(env, w, batches[..k]);
      var b := Batch(env, prev.world, batches[k]);
      && batches[..k] + [batches[k]] == batches
      && Round(env, w, batches) == RoundRun(prev.results + [b.result], prev.visits + b.visits, b.world)
  {
    SnocSplit(batches);
  }

  lemma SnocSplit<T>(xs: seq<T>)
    requires xs != []
    ensures xs[..|xs| - 1] + [xs[|xs| - 1]] == xs
  {
  }

  lemma TakeSnoc<T>(xs: seq<T>, x: T, j: nat)
    requires j <= |xs|
    ensures (xs + [x])[..j] == xs[..j]
  {
  }

  lemma TakeTake<T>(xs: seq<T>, k: nat, j: nat)
    requires j <= k <= |xs|
    ensures xs[..k][..j] == xs[..j]
  {
  }

  /** The prefix of a round is the round over the prefix of its batches. */
  lemma {:induction false} RoundExtends(env: Env, w: World, batches: seq<seq<Nibbles>>, j: nat)
    requires Deliverable(w.responses)
    requires j <= |batches|
    ensures Round(env, w, batches[..j]).results == Round(env, w, batches).results[..j]
    decreases |batches|
  {
    if j < |batches| {
      var k := |batches| - 1;
      var prev := Round(env, w, batches[..k]);
      RoundSnoc(env, w, batches);
      TakeTake(batches, k, j);
      RoundExtends(env, w, batches[..k], j);
      TakeSnoc(prev.results, Batch(env, prev.world, batches[k]).result, j);
    } else {
      assert batches[..j] == batches;
    }
  }

  /** The j-th batch of a round gets the j-th answer of the peers, or none
      once they have run out, and its result is that batch's run against the
      world the batches before it left. */
  lemma RoundBatch(env: Env, w: World, batches: seq<seq<Nibbles>>, j: nat)
    requires Deliverable(w.responses)
    requires j < |batches|
    ensures var before := Round(env, w, batches[..j]).world;
      && NextAnswer(before.responses) == (if j < |w.responses| then w.responses[j] else None)
      && Round(env, w, batches).results[j] == Batch(env, before, batches[j]).result
  {
    RoundAnswers(env, w, batches[..j]);
    RoundPrefix(env, w, batches, j);
    RoundExtends(env, w, batches, j + 1);
    assert Round(env, w, batches[..j + 1]).results[j] == Round(env, w, batches).results[..j + 1][j];
  }

  /** A round is stale only when some batch got no answer. */
  lemma RoundStale(env: Env, w: World, batches: seq<seq<Nibbles>>)
    requires Deliverable(w.responses)
    ensures AnyStale(Round(env, w, batches).results) ==>
      exists j :: 0 <= j < |batches| && (j >= |w.responses| || w.responses[j].None?)
  {
    var r := Round(env, w, batches);
    if AnyStale(r.results) {
      var j :| 0 <= j < |r.results| && r.results[j].Ok? && r.results[j].value.1;
      RoundBatch(env, w, batches, j);
      BatchStale(env, Round(env, w, batches[..j]).world, batches[j]);
    }
  }

  /** The queue identity of batches run so far: when all of them
      succeeded, the paths drained plus the children found are the paths
      handed back plus the paths visited. */
  predicate QueueKept(drained: seq<seq<Nibbles>>, results: seq<BatchResult>, visits: seq<Visit>)
  {
    AllOk(results) ==>
      multiset(Flatten(drained)) + multiset(ChildrenOf(visits)) == multiset(ReturnedPaths(results)) + multiset(PathsOf(visits))
  }

  /** A round's queue identity: when every batch succeeded, the paths
      drained plus the children found are the paths handed back plus the
      paths visited. */
  lemma {:induction false} RoundQueue(env: Env, w: World, batches: seq<seq<Nibbles>>)
    requires Deliverable(w.responses)
    ensures var r := Round(env, w, batches); QueueKept(batches, r.results, r.visits)
    decreases |batches|
  {
    if batches != [] {
      var k := |batches| - 1;
      var prev := Round(env, w, batches[..k]);
      var b := Batch(env, prev.world, batches[k]);
      RoundSnoc(env, w, batches);
      RoundQueue(env, w, batches[..k]);
      BatchQueue(env, prev.world, batches[k]);
      QueueSnoc(batches[..k], batches[k], prev.results, b.result, prev.visits, b.visits);
    } else {
      assert Flatten(batches) == [] && ReturnedPaths([]) == [];
    }
  }

  lemma QueueSnoc(drained: seq<seq<Nibbles>>, b: seq<Nibbles>, results: seq<BatchResult>, r: BatchResult,
                  visits: seq<Visit>, vs: seq<Visit>)
    requires QueueKept(drained, results, visits)
    requires r.Ok? ==> b + ChildrenOf(vs) == PathsOf(vs) + r.value.0
    ensures QueueKept(drained + [b], results + [r], visits + vs)
  {
    ResultsSnoc(results, r);
    FlattenSnoc(drained, b);
    if AllOk(results + [r]) {
      RoundConserves(Flatten(drained), b, visits, vs, ReturnedPaths(results), r.value.0);
    }
  }

  /** A round only adds keys to the trie table, every key it adds is a
      hash, and every node it visited that has a hash is then stored. */
  lemma {:induction false} RoundStores(env: Env, w: World, batches: seq<seq<Nibbles>>)
    requires Deliverable(w.responses)
    ensures var r := Round(env, w, batches);
      && w.trieNodes.Keys <= r.world.trieNodes.Keys
      && (forall k :: k in r.world.trieNodes && k !in w.trieNodes ==> k.Hashed?)
      && (forall v :: v in r.visits && env.o.hashOf(v.node).Hashed? ==> env.o.hashOf(v.node) in r.world.trieNodes)
    decreases |batches|
  {
    if batches != [] {
      var k := |batches| - 1;
      var prev := Round(env, w, batches[..k]);
      RoundStores(env, w, batches[..k]);
      BatchStores(env, prev.world, batches[k]);
    }
  }

  /** Every node a round visited was handed out by the peers. */
  lemma {:induction false} RoundDelivered(env: Env, w: World, batches: seq<seq<Nibbles>>)
    requires Deliverable(w.responses)
    ensures forall v :: v in Round(env, w, batches).visits ==> v.node in Delivered(w.responses)
    ensures Delivered(Round(env, w, batches).world.responses) <= Delivered(w.responses)
    decreases |batches|
  {
    RoundResponses(env, w, batches);
    DeliveredSuffix(w.responses, Min(|batches|, |w.responses|));
    if batches != [] {
      var k := |batches| - 1;
      var prev := Round(env, w, batches[..k]);
      var b := Batch(env, prev.world, batches[k]);
      RoundDelivered(env, w, batches[..k]);
      RoundAnswers(env, w, batches[..k]);
      BatchVisits(env, prev.world, batches[k]);
      forall v | v in b.visits
        ensures v.node in Delivered(w.responses)
      {
        var m := Min(k, |w.responses|);
        assert prev.world.responses[0] == w.responses[m];
        assert w.responses[m].Some? && v.node in w.responses[m].value;
      }
    }
  }

  // ---------------------------------------------------------------------
  // Draining the queue and merging the results

  datatype Drained = Drained(batches: seq<seq<Nibbles>>, rest: seq<Nibbles>)

  /** The spawning loop of a round: up to `slots` slices of at most `size`
      paths taken from the front of the queue, stopping once it is empty. */
  function Drain(paths: seq<Nibbles>, size: nat, slots: nat): Drained
    decreases slots
  {
    if slots == 0 then Drained([], paths)
    else
      var n := if |paths| < size then |paths| else size;
      if paths[n..] == [] then Drained([paths[..n]], [])
      else
        var d := Drain(paths[n..], size, slots - 1);
        Drained([paths[..n]] + d.batches, d.rest)
  }

  /** One step of the spawning loop, seen from the batches already
      spawned. */
  lemma DrainAdvance(done: seq<seq<Nibbles>>, rest: seq<Nibbles>, size: nat, slots: nat)
    requires slots > 0
    ensures var n := if |rest| < size then |rest| else size;
      var d := Drain(rest, size, slots);
      var d' := Drain(rest[n..], size, slots - 1);
      && (rest[n..] == [] ==> Drained(done + d.batches, d.rest) == Drained(done + [rest[..n]], []))
      && (rest[n..] != [] ==> Drained(done + d.batches, d.rest) == Drained((done + [rest[..n]]) + d'.batches, d'.rest))
  {
    var n := if |rest| < size then |rest| else size;
    var d' := Drain(rest[n..], size, slots - 1);
    assert done + ([rest[..n]] + d'.batches) == (done + [rest[..n]]) + d'.batches;
  }

  function DrainQueue(queue: seq<Nibbles>, cfg: Config): Drained
  {
    Drain(queue, cfg.nodeBatchSize, cfg.maxParallelFetches)
  }

  lemma {:induction false} FlattenCons(b: seq<Nibbles>, batches: seq<seq<Nibbles>>)
    ensures Flatten([b] + batches) == b + Flatten(batches)
    decreases |batches|
  {
    if batches != [] {
      var k := |batches| - 1;
      assert ([b] + batches)[..|[b] + batches| - 1] == [b] + batches[..k];
      FlattenCons(b, batches[..k]);
    } else {
      assert [b] + batches == [b];
      assert [b][..0] == [];
    }
  }

  /** The batches of a round taken end to end, followed by what is left, are
      the queue; there are at most `slots` of them and at least one; each
      holds at most `size` paths and all but the last exactly `size`; paths
      are left only when every slot was filled; and no batch of a non-empty
      queue is empty. */
  lemma DrainShape(paths: seq<Nibbles>, size: nat, slots: nat)
    ensures var d := Drain(paths, size, slots);
      && Flatten(d.batches) + d.rest == paths
      && |d.batches| <= slots
      && (slots > 0 ==> |d.batches| > 0)
      && (forall i :: 0 <= i < |d.batches| ==> |d.batches[i]| <= size)
      && (forall i :: 0 <= i < |d.batches| - 1 ==> |d.batches[i]| == size)
      && (d.rest != [] ==> |d.batches| == slots && forall i :: 0 <= i < |d.batches| ==> |d.batches[i]| == size)
      && (paths != [] && size > 0 ==> forall i :: 0 <= i < |d.batches| ==> d.batches[i] != [])
  {
    DrainCovers(paths, size, slots);
    DrainCount(paths, size, slots);
    DrainSizes(paths, size, slots);
  }

  lemma {:induction false} DrainCovers(paths: seq<Nibbles>, size: nat, slots: nat)
    ensures var d := Drain(paths, size, slots); Flatten(d.batches) + d.rest == paths
    decreases slots
  {
    if slots > 0 {
      var n := if |paths| < size then |paths| else size;
      assert paths[..n] + paths[n..] == paths;
      if paths[n..] == [] {
        FlattenCons(paths[..n], []);
      } else {
        var d := Drain(paths[n..], size, slots - 1);
        DrainCovers(paths[n..], size, slots - 1);
        FlattenCons(paths[..n], d.batches);
      }
    }
  }

  lemma {:induction false} DrainCount(paths: seq<Nibbles>, size: nat, slots: nat)
    ensures var d := Drain(paths, size, slots);
      && |d.batches| <= slots
      && (slots > 0 ==> |d.batches| > 0)
      && (d.rest != [] ==> |d.batches| == slots)
    decreases slots
  {
    if slots > 0 {
      var n := if |paths| < size then |paths| else size;
      if paths[n..] != [] {
        DrainCount(paths[n..], size, slots - 1);
      }
    }
  }

  lemma {:induction false} DrainSizes(paths: seq<Nibbles>, size: nat, slots: nat)
    ensures var d := Drain(paths, size, slots);
      && (forall i :: 0 <= i < |d.batches| ==> |d.batches[i]| <= size)
      && (forall i :: 0 <= i < |d.batches| - 1 ==> |d.batches[i]| == size)
      && (d.rest != [] ==> forall i :: 0 <= i < |d.batches| ==> |d.batches[i]| == size)
      && (paths != [] && size > 0 ==> forall i :: 0 <= i < |d.batches| ==> d.batches[i] != [])
    decreases slots
  {
    if slots > 0 {
      var n := if |paths| < size then |paths| else size;
      if paths[n..] != [] {
        var d := Drain(paths[n..], size, slots - 1);
        DrainSizes(paths[n..], size, slots - 1);
        var all := [paths[..n]] + d.batches;
        assert |paths[..n]| == size;
        forall i | 1 <= i < |all|
          ensures all[i] == d.batches[i - 1]
        {
        }
      }
    }
  }

  /** The first failed batch of a round, in batch order. */
  function FirstError(results: seq<BatchResult>): Option<SyncError>
  {
    if results == [] then None
    else if results[0].Err? then Some(results[0].error)
    else FirstError(results[1..])
  }

  /** A round has a first error exactly when some batch failed, and it is
      the error of the earliest failed batch. */
  lemma {:induction false} FirstErrorExact(results: seq<BatchResult>)
    ensures FirstError(results).None? <==> AllOk(results)
    ensures forall i :: 0 <= i < |results| && AllOk(results[..i]) && results[i].Err? ==>
      FirstError(results) == Some(results[i].error)
    decreases |results|
  {
    if results != [] {
      FirstErrorExact(results[1..]);
      forall i | 0 < i < |results| && AllOk(results[..i]) && results[i].Err?
        ensures FirstError(results) == Some(results[i].error)
      {
        assert results[0] == results[..i][0];
        assert results[1..][i - 1] == results[i];
        var tail := results[1..][..i - 1];
        forall t | 0 <= t < |tail|
          ensures tail[t].Ok?
        {
          assert tail[t] == results[..i][t + 1];
        }
      }
      if AllOk(results[1..]) && results[0].Ok? {
        assert forall t :: 0 < t < |results| ==> results[t] == results[1..][t - 1];
      }
      if !AllOk(results[1..]) {
        var t :| 0 <= t < |results[1..]| && results[1..][t].Err?;
        assert results[t + 1].Err?;
      }
    }
  }

  /** The merge of a round's results: the first failed batch aborts,
      otherwise every returned path is queued behind what was left and the
      stale flags are or-ed. */
  function Merge(rest: seq<Nibbles>, results: seq<BatchResult>): Result<(seq<Nibbles>, bool), SyncError>
  {
    match FirstError(results)
    case Some(e) => Err(e)
    case None => Ok((rest + ReturnedPaths(results), AnyStale(results)))
  }

  // ---------------------------------------------------------------------
  // The round loop

  /** How the round loop ends: the queue it ends with, the error it failed
      with, every pairing made, the results of its last round and the
      world it leaves. */
  datatype HealRun = HealRun(paths: seq<Nibbles>, failure: Option<SyncError>, visited: seq<Visit>,
                             lastRound: seq<BatchResult>, world: World)

  /** A round that goes on to the next one consumed at least one answer:
      with the answers exhausted every batch of a round comes back stale. */
  lemma RoundConsumes(env: Env, cfg: Config, queue: seq<Nibbles>, w: World)
    requires Deliverable(w.responses) && Positive(cfg) && queue != []
    ensures var d := DrainQueue(queue, cfg);
      var rr := Round(env, w, d.batches);
      && |rr.world.responses| <= |w.responses|
      && (Merge(d.rest, rr.results).Ok? && !Merge(d.rest, rr.results).value.1 ==> |rr.world.responses| < |w.responses|)
  {
    var d := DrainQueue(queue, cfg);
    var rr := Round(env, w, d.batches);
    DrainShape(queue, cfg.nodeBatchSize, cfg.maxParallelFetches);
    RoundAnswers(env, w, d.batches);
    if |w.responses| == 0 {
      assert rr.results[0] == Ok((d.batches[0], true));
      assert AnyStale(rr.results);
    }
  }

  /** The round loop of `heal_state_trie` from queue `queue`, after the
      pairings `visited` and with `lastRound` the results of the round
      before. An empty queue ends it; otherwise a round is run: a failed
      round ends it with its first error, a stale round ends it once its
      paths are queued, and any other round goes on. */
  function Rounds(env: Env, cfg: Config, queue: seq<Nibbles>, w: World, visited: seq<Visit>,
                  lastRound: seq<BatchResult>): HealRun
    requires Deliverable(w.responses) && Positive(cfg)
    decreases |w.responses|
  {
    if queue == [] then HealRun([], None, visited, lastRound, w)
    else
      var d := DrainQueue(queue, cfg);
      var rr := Round(env, w, d.batches);
      var m := Merge(d.rest, rr.results);
      if m.Err? then HealRun(queue, Some(m.error), visited, rr.results, rr.world)
      else if m.value.1 then HealRun(m.value.0, None, visited + rr.visits, rr.results, rr.world)
      else
        RoundConsumes(env, cfg, queue, w);
        Rounds(env, cfg, m.value.0, rr.world, visited + rr.visits, rr.results)
  }

  /** The healing conservation law: every path ever queued is still queued
      or was visited, and every visited node's missing children were queued
      (as multisets: the seeded paths plus the children found are the paths
      left plus the paths visited). */
  lemma {:induction false} RoundsConserve(env: Env, cfg: Config, seeded: seq<Nibbles>, queue: seq<Nibbles>, w: World,
                                          visited: seq<Visit>, lastRound: seq<BatchResult>)
    requires Deliverable(w.responses) && Positive(cfg)
    requires multiset(seeded) + multiset(ChildrenOf(visited)) == multiset(queue) + multiset(PathsOf(visited))
    ensures var r := Rounds(env, cfg, queue, w, visited, lastRound);
      multiset(seeded) + multiset(ChildrenOf(r.visited)) == multiset(r.paths) + multiset(PathsOf(r.visited))
    decreases |w.responses|
  {
    if queue != [] {
      var d := DrainQueue(queue, cfg);
      var rr := Round(env, w, d.batches);
      var m := Merge(d.rest, rr.results);
      if m.Ok? {
        FirstErrorExact(rr.results);
        RoundQueue(env, w, d.batches);
        DrainShape(queue, cfg.nodeBatchSize, cfg.maxParallelFetches);
        RoundMerge(d.batches, d.rest, rr.visits, ReturnedPaths(rr.results));
        ConservationStep(seeded, visited, queue, rr.visits, m.value.0);
        if !m.value.1 {
          RoundConsumes(env, cfg, queue, w);
          RoundsConserve(env, cfg, seeded, m.value.0, rr.world, visited + rr.visits, rr.results);
        }
      }
    }
  }

  /** How the loop ends: with a non-empty queue only after a stale round,
      and on a failure with the first error of its last round. */
  lemma {:induction false} RoundsExit(env: Env, cfg: Config, queue: seq<Nibbles>, w: World,
                                      visited: seq<Visit>, lastRound: seq<BatchResult>)
    requires Deliverable(w.responses) && Positive(cfg)
    ensures var r := Rounds(env, cfg, queue, w, visited, lastRound);
      && (r.failure.None? && r.paths != [] ==> AnyStale(r.lastRound))
      && (r.failure.Some? ==> FirstError(r.lastRound) == r.failure)
    decreases |w.responses|
  {
    if queue != [] {
      var d := DrainQueue(queue, cfg);
      var rr := Round(env, w, d.batches);
      var m := Merge(d.rest, rr.results);
      if m.Ok? && !m.value.1 {
        RoundConsumes(env, cfg, queue, w);
        RoundsExit(env, cfg, m.value.0, rr.world, visited + rr.visits, rr.results);
      }
    }
  }

  /** The loop only adds keys to the trie table, every key it adds is a
      hash, and every visited node that has a hash is stored by the end. */
  lemma {:induction false} RoundsStore(env: Env, cfg: Config, queue: seq<Nibbles>, w: World,
                                       visited: seq<Visit>, lastRound: seq<BatchResult>)
    requires Deliverable(w.responses) && Positive(cfg)
    requires forall v :: v in visited && env.o.hashOf(v.node).Hashed? ==> env.o.hashOf(v.node) in w.trieNodes
    ensures var r := Rounds(env, cfg, queue, w, visited, lastRound);
      && w.trieNodes.Keys <= r.world.trieNodes.Keys
      && (forall k :: k in r.world.trieNodes && k !in w.trieNodes ==> k.Hashed?)
      && (forall v :: v in r.visited && env.o.hashOf(v.node).Hashed? ==> env.o.hashOf(v.node) in r.world.trieNodes)
    decreases |w.responses|
  {
    if queue != [] {
      var d := DrainQueue(queue, cfg);
      var rr := Round(env, w, d.batches);
      var m := Merge(d.rest, rr.results);
      RoundStores(env, w, d.batches);
      if m.Ok? && !m.value.1 {
        RoundConsumes(env, cfg, queue, w);
        RoundsStore(env, cfg, m.value.0, rr.world, visited + rr.visits, rr.results);
      }
    }
  }

  /** Every request the loop makes is made against the root, after the
      requests made before it. */
  lemma {:induction false} RoundsRequests(env: Env, cfg: Config, queue: seq<Nibbles>, w: World,
                                          visited: seq<Visit>, lastRound: seq<BatchResult>)
    requires Deliverable(w.responses) && Positive(cfg)
    ensures var r := Rounds(env, cfg, queue, w, visited, lastRound);
      && |w.requests| <= |r.world.requests| && r.world.requests[..|w.requests|] == w.requests
      && AgainstRoot(env.root, r.world.requests[|w.requests|..])
    decreases |w.responses|
  {
    if queue != [] {
      var d := DrainQueue(queue, cfg);
      var rr := Round(env, w, d.batches);
      var m := Merge(d.rest, rr.results);
      RoundRequests(env, w, d.batches);
      var made := Requests(env.root, d.batches);
      if m.Ok? && !m.value.1 {
        RoundConsumes(env, cfg, queue, w);
        RoundsRequests(env, cfg, m.value.0, rr.world, visited + rr.visits, rr.results);
        var r := Rounds(env, cfg, m.value.0, rr.world, visited + rr.visits, rr.results);
        RequestsExtend(env.root, w.requests, made, r.world.requests);
      } else {
        RequestsExtend(env.root, w.requests, made, rr.world.requests);
      }
    }
  }

  lemma RequestsExtend(root: Hash32, before: seq<(Hash32, seq<Nibbles>)>, made: seq<(Hash32, seq<Nibbles>)>,
                       after: seq<(Hash32, seq<Nibbles>)>)
    requires AgainstRoot(root, made)
    requires |before + made| <= |after| && after[..|before + made|] == before + made
    requires AgainstRoot(root, after[|before + made|..])
    ensures |before| <= |after| && after[..|before|] == before
    ensures AgainstRoot(root, after[|before|..])
  {
    assert after[..|before|] == (before + made)[..|before|];
    assert after[|before|..] == made + after[|before + made|..];
  }

  /** Every node of `visits` is one of `nodes`. */
  predicate VisitsAmong(visits: seq<Visit>, nodes: set<Node>)
  {
    forall v :: v in visits ==> v.node in nodes
  }

  /** Healing a non-empty queue asks the peers at least once. */
  lemma RoundsAsks(env: Env, cfg: Config, queue: seq<Nibbles>, w: World,
                   visited: seq<Visit>, lastRound: seq<BatchResult>)
    requires Deliverable(w.responses) && Positive(cfg)
    requires queue != []
    ensures |Rounds(env, cfg, queue, w, visited, lastRound).world.requests| > |w.requests|
  {
    var d := DrainQueue(queue, cfg);
    var rr := Round(env, w, d.batches);
    var m := Merge(d.rest, rr.results);
    DrainShape(queue, cfg.nodeBatchSize, cfg.maxParallelFetches);
    RoundRequests(env, w, d.batches);
    if m.Ok? && !m.value.1 {
      RoundConsumes(env, cfg, queue, w);
      RoundsRequests(env, cfg, m.value.0, rr.world, visited + rr.visits, rr.results);
    }
  }

  /** Every node the loop visited was handed out by the peers: `seen` holds
      every node the peers hand out, those still to come included. */
  lemma {:induction false} RoundsDelivered(env: Env, cfg: Config, queue: seq<Nibbles>, w: World,
                                           visited: seq<Visit>, lastRound: seq<BatchResult>, seen: set<Node>)
    requires Deliverable(w.responses) && Positive(cfg)
    requires Delivered(w.responses) <= seen
    requires VisitsAmong(visited, seen)
    ensures VisitsAmong(Rounds(env, cfg, queue, w, visited, lastRound).visited, seen)
    decreases |w.responses|
  {
    if queue != [] {
      var d := DrainQueue(queue, cfg);
      var rr := Round(env, w, d.batches);
      var m := Merge(d.rest, rr.results);
      RoundDelivered(env, w, d.batches);
      assert VisitsAmong(visited + rr.visits, seen);
      if m.Ok? && !m.value.1 {
        RoundConsumes(env, cfg, queue, w);
        RoundsDelivered(env, cfg, m.value.0, rr.world, visited + rr.visits, rr.results, seen);
      }
    }
  }

  /** The laws of a healing run from queue `seeded` with nothing visited
      yet: nothing is lost from the queue; it ends with paths left only
      after a stale round, and on a failure with its last round's first
      error; the trie table only gains hashed keys and holds every visited
      node that has a hash; every visited node was handed out by the peers;
      and every request is made against the root. */
  lemma RoundsLaws(env: Env, cfg: Config, seeded: seq<Nibbles>, w: World)
    requires Deliverable(w.responses) && Positive(cfg)
    ensures var r := Rounds(env, cfg, seeded, w, [], []);
      && multiset(seeded) + multiset(ChildrenOf(r.visited)) == multiset(r.paths) + multiset(PathsOf(r.visited))
      && (r.failure.None? && r.paths != [] ==> AnyStale(r.lastRound))
      && (r.failure.Some? ==> FirstError(r.lastRound) == r.failure)
      && w.trieNodes.Keys <= r.world.trieNodes.Keys
      && (forall k :: k in r.world.trieNodes && k !in w.trieNodes ==> k.Hashed?)
      && (forall v :: v in r.visited && env.o.hashOf(v.node).Hashed? ==> env.o.hashOf(v.node) in r.world.trieNodes)
      && VisitsAmong(r.visited, Delivered(w.responses))
      && |w.requests| <= |r.world.requests| && AgainstRoot(env.root, r.world.requests[|w.requests|..])
  {
    RoundsConserve(env, cfg, seeded, seeded, w, [], []);
    RoundsExit(env, cfg, seeded, w, [], []);
    RoundsStore(env, cfg, seeded, w, [], []);
    RoundsRequests(env, cfg, seeded, w, [], []);
    RoundsDelivered(env, cfg, seeded, w, [], [], Delivered(w.responses));
  }
}
