/** Log filtering for `eth_getLogs` / `eth_newFilter`: the shape checks that
    turn the request parameters into a filter, the walk over blocks,
    transactions and the logs of succeeded receipts that numbers every log
    within its block and keeps those from the requested addresses, and the
    positional topic filter applied afterwards. */
module Logs {
  import opened Common

  /** A 20-byte account address (`H160`). */
  type Address = s: seq<byte> | |s| == 20 witness seq(20, _ => 0)

  /** The JSON values a request carries. */
  datatype Json =
    | JNull
    | JBool(b: bool)
    | JNumber(n: int)
    | JString(s: string)
    | JArray(items: seq<Json>)
    | JObject(fields: map<string, Json>)

  datatype RpcErr =
    | BadParams(message: string)
    | MissingParam(name: string)
    | WrongParam(name: string)
    | Internal(message: string)

  /** A block named by its number or by a tag such as `latest`. */
  datatype BlockIdentifier = Number(n: nat) | Tag(name: string)

  datatype AddressFilter = Single(address: Address) | Many(addresses: seq<Address>)

  /** One position of the topic filter: a single topic or wildcard, or a list
      of alternatives. */
  datatype TopicFilter = Topic(topic: Option<Hash32>) | Topics(alternatives: seq<Option<Hash32>>)

  datatype LogsFilter = LogsFilter(fromBlock: BlockIdentifier, toBlock: BlockIdentifier,
                                   addressFilters: Option<AddressFilter>, topics: seq<TopicFilter>)

  /** The decoders `parse` hands the fields to: `BlockIdentifier::parse` and
      the deserialization of an address filter and of a topic filter list
      (`None` when the value does not deserialize). */
  datatype Decoders = Decoders(parseBlock: Json -> Result<BlockIdentifier, RpcErr>,
                               addressFilter: Json -> Option<AddressFilter>,
                               topicFilters: Json -> Option<seq<TopicFilter>>)

  const ParamsShapeMsg := "Params are not an array of one element"
  const ParamNotObjectMsg := "Param is not a object"
  const EmptyRangeMsg := "Empty range"
  const MissingReceiptMsg := "Could not get receipt"

  /** Deserializing an `Option<T>`: `null` is `None`, anything else must
      deserialize as a `T`. */
  function DecodeOptional<T>(v: Json, inner: Json -> Option<T>): Option<Option<T>>
  {
    if v == JNull then Some(None)
    else match inner(v)
      case None => None
      case Some(x) => Some(Some(x))
  }

  /** `LogsFilter::parse`: the parameters must be an array holding exactly
      one object. */
  function Parse(params: Option<seq<Json>>, d: Decoders): (r: Result<LogsFilter, RpcErr>)
    ensures !(params.Some? && |params.value| == 1) ==> r == Err(BadParams(ParamsShapeMsg))
    ensures params.Some? && |params.value| == 1 && !params.value[0].JObject? ==> r == Err(BadParams(ParamNotObjectMsg))
    ensures r.Ok? ==> params.Some? && |params.value| == 1 && params.value[0].JObject?
  {
    if params.None? || |params.value| != 1 then Err(BadParams(ParamsShapeMsg))
    else match params.value[0]
      case JObject(m) => ParseObject(m, d)
      case _ => Err(BadParams(ParamNotObjectMsg))
  }

  /** The fields of the parameter object, read in the order `fromBlock`,
      `toBlock`, `address`, `topics`; the first failure is reported. */
  function ParseObject(m: map<string, Json>, d: Decoders): Result<LogsFilter, RpcErr>
  {
    if "fromBlock" !in m then Err(MissingParam("fromBlock"))
    else match d.parseBlock(m["fromBlock"])
    case Err(e) => Err(e)
    case Ok(from) =>
      if "toBlock" !in m then Err(MissingParam("toBlock"))
      else match d.parseBlock(m["toBlock"])
      case Err(e) => Err(e)
      case Ok(to) =>
        if "address" !in m then Err(MissingParam("address"))
        else match DecodeOptional(m["address"], d.addressFilter)
        case None => Err(WrongParam("address"))
        case Some(address) =>
          if "topics" !in m then Err(MissingParam("topics"))
          else match DecodeOptional(m["topics"], d.topicFilters)
          case None => Err(WrongParam("topics"))
          case Some(topics) => Ok(LogsFilter(from, to, address, topics.GetOr([])))
  }

  /** A parameter object is accepted exactly when all four fields are present
      and decode; the filter then carries the decoded values, a `null`
      address means no address filter and a `null` topic list means no topic
      filter. */
  lemma ParseAccepts(m: map<string, Json>, d: Decoders)
    ensures Parse(Some([JObject(m)]), d).Ok? <==>
      && "fromBlock" in m && d.parseBlock(m["fromBlock"]).Ok?
      && "toBlock" in m && d.parseBlock(m["toBlock"]).Ok?
      && "address" in m && (m["address"] == JNull || d.addressFilter(m["address"]).Some?)
      && "topics" in m && (m["topics"] == JNull || d.topicFilters(m["topics"]).Some?)
    ensures Parse(Some([JObject(m)]), d).Ok? ==>
      var f := Parse(Some([JObject(m)]), d).value;
      && f.fromBlock == d.parseBlock(m["fromBlock"]).value
      && f.toBlock == d.parseBlock(m["toBlock"]).value
      && f.addressFilters == (if m["address"] == JNull then None else d.addressFilter(m["address"]))
      && f.topics == (if m["topics"] == JNull then [] else d.topicFilters(m["topics"]).value)
  {
  }

  /** A missing field is reported by name, the earliest missing one first;
      a field that does not decode is a wrong parameter. */
  lemma ParseReportsFirstMissing(m: map<string, Json>, d: Decoders)
    ensures "fromBlock" !in m ==> Parse(Some([JObject(m)]), d) == Err(MissingParam("fromBlock"))
    ensures "fromBlock" in m && d.parseBlock(m["fromBlock"]).Err? ==>
      Parse(Some([JObject(m)]), d) == Err(d.parseBlock(m["fromBlock"]).error)
    ensures "fromBlock" in m && d.parseBlock(m["fromBlock"]).Ok? && "toBlock" !in m ==>
      Parse(Some([JObject(m)]), d) == Err(MissingParam("toBlock"))
    ensures "fromBlock" in m && d.parseBlock(m["fromBlock"]).Ok? &&
            "toBlock" in m && d.parseBlock(m["toBlock"]).Ok? && "address" !in m ==>
      Parse(Some([JObject(m)]), d) == Err(MissingParam("address"))
    ensures "fromBlock" in m && d.parseBlock(m["fromBlock"]).Ok? &&
            "toBlock" in m && d.parseBlock(m["toBlock"]).Ok? &&
            "address" in m && m["address"] != JNull && d.addressFilter(m["address"]).None? ==>
      Parse(Some([JObject(m)]), d) == Err(WrongParam("address"))
    ensures "fromBlock" in m && d.parseBlock(m["fromBlock"]).Ok? &&
            "toBlock" in m && d.parseBlock(m["toBlock"]).Ok? &&
            "address" in m && (m["address"] == JNull || d.addressFilter(m["address"]).Some?) ==>
      && ("topics" !in m ==> Parse(Some([JObject(m)]), d) == Err(MissingParam("topics")))
      && ("topics" in m && m["topics"] != JNull && d.topicFilters(m["topics"]).None? ==>
            Parse(Some([JObject(m)]), d) == Err(WrongParam("topics")))
  {
  }

  // ---------------------------------------------------------------------
  // Topic filter

  /** One position of the topic filter against the log's topic there:
      `Topic(None)` and an empty alternative list match anything, a single
      topic must be equal, and a list matches when some alternative is a
      wildcard or equal. */
  predicate PositionMatches(f: TopicFilter, topic: Hash32)
  {
    match f
    case Topic(None) => true
    case Topic(Some(t)) => topic == t
    case Topics(alternatives) =>
      alternatives == [] || exists k :: 0 <= k < |alternatives| && (alternatives[k].None? || alternatives[k].value == topic)
  }

  /** The topic filter keeps a log when the log has at least as many topics
      as the filter has positions and every position matches. */
  predicate TopicsMatch(filters: seq<TopicFilter>, topics: seq<Hash32>)
  {
    |filters| <= |topics| && forall i :: 0 <= i < |filters| ==> PositionMatches(filters[i], topics[i])
  }

  /** Whether some alternative is a wildcard or equals `topic`. */
  method AnyAlternative(alternatives: seq<Option<Hash32>>, topic: Hash32) returns (found: bool)
    ensures found <==> exists k :: 0 <= k < |alternatives| && (alternatives[k].None? || alternatives[k].value == topic)
  {
    for k := 0 to |alternatives|
      invariant forall k' :: 0 <= k' < k ==> alternatives[k'].Some? && alternatives[k'].value != topic
    {
      if alternatives[k].None? || alternatives[k].value == topic {
        return true;
      }
    }
    return false;
  }

  /** The topic closure of `fetch_logs_with_filter`: reject a log with too
      few topics, then check position by position and stop at the first
      mismatch. */
  method MatchesTopics(filters: seq<TopicFilter>, topics: seq<Hash32>) returns (keep: bool)
    ensures keep == TopicsMatch(filters, topics)
  {
    if |filters| > |topics| {
      return false;
    }
    for i := 0 to |filters|
      invariant forall i' :: 0 <= i' < i ==> PositionMatches(filters[i'], topics[i'])
    {
      match filters[i]
      case Topic(t) =>
        if t.Some? && topics[i] != t.value {
          return false;
        }
      case Topics(alternatives) =>
        if alternatives != [] {
          var found := AnyAlternative(alternatives, topics[i]);
          if !found {
            return false;
          }
        }
    }
    return true;
  }

  // ---------------------------------------------------------------------
  // The chain as the store presents it

  datatype Log = Log(address: Address, topics: seq<Hash32>, data: seq<byte>)

  datatype Receipt = Receipt(succeeded: bool, logs: seq<Log>)

  /** Block bodies as the hashes of their transactions, header hashes, and
      receipts by (block number, transaction index). A missing entry is a
      block, header or receipt the store does not have. */
  datatype Chain = Chain(bodies: map<nat, seq<Hash32>>, headerHashes: map<nat, Hash32>,
                         receipts: map<(nat, nat), Receipt>)

  /** A log as the endpoint returns it. */
  datatype RpcLog = RpcLog(log: Log, logIndex: nat, transactionHash: Hash32, transactionIndex: nat,
                           blockNumber: nat, blockHash: Hash32, removed: bool)

  /** Where a receipt's logs come from. */
  datatype Origin = Origin(transactionHash: Hash32, transactionIndex: nat, blockNumber: nat, blockHash: Hash32)

  function Entry(log: Log, logIndex: nat, at: Origin): RpcLog
  {
    RpcLog(log, logIndex, at.transactionHash, at.transactionIndex, at.blockNumber, at.blockHash, false)
  }

  /** The decimal digits of `n`, as `format!` writes a block number. */
  function Decimal(n: nat): (r: string)
    ensures |r| > 0
    ensures forall i :: 0 <= i < |r| ==> '0' <= r[i] <= '9'
  {
    var digit := ((n % 10) + 48) as char;
    if n < 10 then [digit] else Decimal(n / 10) + [digit]
  }

  /** Reads a string of decimal digits back as a number, most significant
      digit first. */
  function FromDecimal(s: string): nat
    requires forall i :: 0 <= i < |s| ==> '0' <= s[i] <= '9'
  {
    if s == [] then 0 else FromDecimal(s[..|s| - 1]) * 10 + (s[|s| - 1] as int - '0' as int)
  }

  /** The digits written for a block number read back as that number. */
  lemma {:induction false} DecimalRoundTrip(n: nat)
    ensures FromDecimal(Decimal(n)) == n
  {
    var r := Decimal(n);
    if n >= 10 {
      DecimalRoundTrip(n / 10);
      assert r[..|r| - 1] == Decimal(n / 10);
    }
  }

  function MissingBodyMsg(b: nat): string
  {
    "Could not get body for block " + Decimal(b)
  }

  function MissingHeaderMsg(b: nat): string
  {
    "Could not get header for block " + Decimal(b)
  }

  /** The set of wanted addresses; an empty set wants every address. */
  function AddressSet(f: Option<AddressFilter>): set<Address>
  {
    match f
    case None => {}
    case Some(Single(a)) => {a}
    case Some(Many(addresses)) => set a | a in addresses
  }

  predicate Accepted(addresses: set<Address>, a: Address)
  {
    addresses == {} || a in addresses
  }

  /** The number of logs in the succeeded receipts of the first `j`
      transactions of block `b`: the log index the next receipt starts at. */
  function LogsBefore(chain: Chain, b: nat, j: nat): nat
  {
    if j == 0 then 0
    else
      var count := if (b, j - 1) in chain.receipts && chain.receipts[(b, j - 1)].succeeded
                   then |chain.receipts[(b, j - 1)].logs| else 0;
      LogsBefore(chain, b, j - 1) + count
  }

  // ---------------------------------------------------------------------
  // The walk, specified

  /** The accepted logs of one succeeded receipt, numbered from `start`. */
  function EmitReceipt(logs: seq<Log>, addresses: set<Address>, start: nat, at: Origin): seq<RpcLog>
  {
    if logs == [] then []
    else
      var last := logs[|logs| - 1];
      EmitReceipt(logs[..|logs| - 1], addresses, start, at)
        + (if Accepted(addresses, last.address) then [Entry(last, start + |logs| - 1, at)] else [])
  }

  /** The transactions of block `b` in order: their emitted logs and the
      block's log counter after them. */
  function WalkTxs(chain: Chain, b: nat, blockHash: Hash32, txs: seq<Hash32>, addresses: set<Address>)
    : (r: Result<(seq<RpcLog>, nat), RpcErr>)
    ensures r.Ok? ==> r.value.1 == LogsBefore(chain, b, |txs|)
  {
    if txs == [] then Ok(([], 0))
    else
      var j := |txs| - 1;
      match WalkTxs(chain, b, blockHash, txs[..j], addresses)
      case Err(e) => Err(e)
      case Ok(acc) => WalkTx(chain, b, blockHash, txs[j], j, acc, addresses)
  }

  /** Transaction `j` of block `b`: its receipt must be stored; a succeeded
      receipt's logs are numbered from the block's counter. */
  function WalkTx(chain: Chain, b: nat, blockHash: Hash32, txHash: Hash32, j: nat, acc: (seq<RpcLog>, nat),
                  addresses: set<Address>): Result<(seq<RpcLog>, nat), RpcErr>
  {
    if (b, j) !in chain.receipts then Err(Internal(MissingReceiptMsg))
    else
      var receipt := chain.receipts[(b, j)];
      if receipt.succeeded
      then Ok((acc.0 + EmitReceipt(receipt.logs, addresses, acc.1, Origin(txHash, j, b, blockHash)), acc.1 + |receipt.logs|))
      else Ok(acc)
  }

  /** One block: its body, then its header, then its transactions. */
  function WalkBlock(chain: Chain, b: nat, addresses: set<Address>): Result<seq<RpcLog>, RpcErr>
  {
    if b !in chain.bodies then Err(Internal(MissingBodyMsg(b)))
    else if b !in chain.headerHashes then Err(Internal(MissingHeaderMsg(b)))
    else match WalkTxs(chain, b, chain.headerHashes[b], chain.bodies[b], addresses)
      case Err(e) => Err(e)
      case Ok((out, _)) => Ok(out)
  }

  /** The `n` blocks from `from` on, in order; the first failure ends it. */
  function WalkBlocks(chain: Chain, from: nat, n: nat, addresses: set<Address>): Result<seq<RpcLog>, RpcErr>
  {
    if n == 0 then Ok([])
    else match WalkBlocks(chain, from, n - 1, addresses)
      case Err(e) => Err(e)
      case Ok(out) =>
        match WalkBlock(chain, from + n - 1, addresses)
        case Err(e) => Err(e)
        case Ok(more) => Ok(out + more)
  }

  /** The logs whose topics match the filter, in their order. */
  function FilterByTopics(logs: seq<RpcLog>, filters: seq<TopicFilter>): seq<RpcLog>
  {
    if logs == [] then []
    else
      var last := logs[|logs| - 1];
      FilterByTopics(logs[..|logs| - 1], filters) + (if TopicsMatch(filters, last.log.topics) then [last] else [])
  }

  /** What `fetch_logs_with_filter` answers, given how the store resolves
      block identifiers. */
  function FetchLogs(filter: LogsFilter, chain: Chain, resolve: BlockIdentifier -> Result<Option<nat>, RpcErr>)
    : Result<seq<RpcLog>, RpcErr>
  {
    match resolve(filter.fromBlock)
    case Err(e) => Err(e)
    case Ok(None) => Err(WrongParam("fromBlock"))
    case Ok(Some(from)) =>
      match resolve(filter.toBlock)
      case Err(e) => Err(e)
      case Ok(None) => Err(WrongParam("toBlock"))
      case Ok(Some(to)) =>
        if from > to then Err(BadParams(EmptyRangeMsg))
        else match WalkBlocks(chain, from, to - from + 1, AddressSet(filter.addressFilters))
          case Err(e) => Err(e)
          case Ok(logs) => Ok(if filter.topics == [] then logs else FilterByTopics(logs, filter.topics))
  }

  // ---------------------------------------------------------------------
  // Properties of the walk

  /** Output order: by block number, then transaction index, then log
      index. */
  predicate Precedes(a: RpcLog, b: RpcLog)
  {
    || a.blockNumber < b.blockNumber
    || (a.blockNumber == b.blockNumber && a.transactionIndex < b.transactionIndex)
    || (a.blockNumber == b.blockNumber && a.transactionIndex == b.transactionIndex && a.logIndex < b.logIndex)
  }

  predicate Ordered(logs: seq<RpcLog>)
  {
    forall i, j :: 0 <= i < j < |logs| ==> Precedes(logs[i], logs[j])
  }

  lemma OrderedAppend(a: seq<RpcLog>, b: seq<RpcLog>)
    requires Ordered(a) && Ordered(b)
    requires forall x, y :: x in a && y in b ==> Precedes(x, y)
    ensures Ordered(a + b)
  {
    forall i, j | 0 <= i < j < |a + b|
      ensures Precedes((a + b)[i], (a + b)[j])
    {
      if j < |a| {
      } else if i >= |a| {
        assert (a + b)[i] == b[i - |a|] && (a + b)[j] == b[j - |a|];
      } else {
        assert (a + b)[i] in a && (a + b)[j] in b;
      }
    }
  }

  /** A receipt emits exactly its accepted logs, each numbered by its
      position after `start`. */
  lemma {:induction false} EmitReceiptExact(logs: seq<Log>, addresses: set<Address>, start: nat, at: Origin)
    ensures forall rl :: rl in EmitReceipt(logs, addresses, start, at) <==>
      exists p :: 0 <= p < |logs| && Accepted(addresses, logs[p].address) && rl == Entry(logs[p], start + p, at)
  {
    if logs != [] {
      var init := logs[..|logs| - 1];
      EmitReceiptExact(init, addresses, start, at);
      forall rl
        ensures rl in EmitReceipt(logs, addresses, start, at) <==>
          exists p :: 0 <= p < |logs| && Accepted(addresses, logs[p].address) && rl == Entry(logs[p], start + p, at)
      {
        if exists p :: 0 <= p < |logs| && Accepted(addresses, logs[p].address) && rl == Entry(logs[p], start + p, at) {
          var p :| 0 <= p < |logs| && Accepted(addresses, logs[p].address) && rl == Entry(logs[p], start + p, at);
          if p < |init| {
            assert init[p] == logs[p];
          }
        }
        if rl in EmitReceipt(init, addresses, start, at) {
          var p :| 0 <= p < |init| && Accepted(addresses, init[p].address) && rl == Entry(init[p], start + p, at);
          assert logs[p] == init[p];
        }
      }
    }
  }

  /** A receipt's emitted logs are in log-index order. */
  lemma {:induction false} EmitReceiptOrdered(logs: seq<Log>, addresses: set<Address>, start: nat, at: Origin)
    ensures Ordered(EmitReceipt(logs, addresses, start, at))
  {
    if logs != [] {
      var init := logs[..|logs| - 1];
      var last := logs[|logs| - 1];
      EmitReceiptOrdered(init, addresses, start, at);
      EmitReceiptExact(init, addresses, start, at);
      var tail := if Accepted(addresses, last.address) then [Entry(last, start + |logs| - 1, at)] else [];
      forall x, y | x in EmitReceipt(init, addresses, start, at) && y in tail
        ensures Precedes(x, y)
      {
      }
      OrderedAppend(EmitReceipt(init, addresses, start, at), tail);
    }
  }

  /** `rl` is an accepted log of the succeeded receipt at its block and
      transaction index, and its log index counts every log of the succeeded
      receipts before it in the block. */
  ghost predicate FromReceipt(chain: Chain, addresses: set<Address>, rl: RpcLog)
  {
    && (rl.blockNumber, rl.transactionIndex) in chain.receipts
    && LogOf(chain.receipts[(rl.blockNumber, rl.transactionIndex)], LogsBefore(chain, rl.blockNumber, rl.transactionIndex), rl)
    && !rl.removed
    && Accepted(addresses, rl.log.address)
  }

  /** `rl` is log `rl.logIndex - first` of a succeeded receipt whose logs
      are numbered from `first`. */
  ghost predicate LogOf(receipt: Receipt, first: nat, rl: RpcLog)
  {
    && receipt.succeeded
    && first <= rl.logIndex < first + |receipt.logs|
    && rl.log == receipt.logs[rl.logIndex - first]
  }

  /** `rl` comes from transaction `rl.transactionIndex` of block `b`. */
  ghost predicate FromTxs(chain: Chain, b: nat, blockHash: Hash32, txs: seq<Hash32>, addresses: set<Address>, rl: RpcLog)
  {
    && rl.blockNumber == b
    && rl.blockHash == blockHash
    && rl.transactionIndex < |txs|
    && rl.transactionHash == txs[rl.transactionIndex]
    && FromReceipt(chain, addresses, rl)
  }

  /** Every log the transactions of a block emit comes from a succeeded
      receipt of that block, and they come out in order. */
  lemma {:induction false} WalkTxsSound(chain: Chain, b: nat, blockHash: Hash32, txs: seq<Hash32>, addresses: set<Address>)
    requires WalkTxs(chain, b, blockHash, txs, addresses).Ok?
    ensures var out := WalkTxs(chain, b, blockHash, txs, addresses).value.0;
      && (forall rl :: rl in out ==> FromTxs(chain, b, blockHash, txs, addresses, rl))
      && Ordered(out)
  {
    if txs != [] {
      var j := |txs| - 1;
      var init := txs[..j];
      WalkTxsSound(chain, b, blockHash, init, addresses);
      var (out, count) := WalkTxs(chain, b, blockHash, init, addresses).value;
      forall rl | rl in out
        ensures FromTxs(chain, b, blockHash, txs, addresses, rl)
      {
        assert FromTxs(chain, b, blockHash, init, addresses, rl);
        assert init[rl.transactionIndex] == txs[rl.transactionIndex];
      }
      var receipt := chain.receipts[(b, j)];
      if receipt.succeeded {
        var at := Origin(txs[j], j, b, blockHash);
        var emitted := EmitReceipt(receipt.logs, addresses, count, at);
        EmitReceiptExact(receipt.logs, addresses, count, at);
        EmitReceiptOrdered(receipt.logs, addresses, count, at);
        forall rl | rl in emitted
          ensures FromTxs(chain, b, blockHash, txs, addresses, rl)
        {
          var p :| 0 <= p < |receipt.logs| && Accepted(addresses, receipt.logs[p].address) && rl == Entry(receipt.logs[p], count + p, at);
        }
        forall x, y | x in out && y in emitted
          ensures Precedes(x, y)
        {
          assert FromTxs(chain, b, blockHash, init, addresses, x);
        }
        OrderedAppend(out, emitted);
      }
    }
  }

  /** Log `p` of the receipt of transaction `j` in block `b` is one the
      address filter wants. */
  ghost predicate Wanted(chain: Chain, addresses: set<Address>, b: nat, j: nat, p: nat)
  {
    && (b, j) in chain.receipts
    && chain.receipts[(b, j)].succeeded
    && p < |chain.receipts[(b, j)].logs|
    && Accepted(addresses, chain.receipts[(b, j)].logs[p].address)
  }

  /** The entry the endpoint returns for log `p` of transaction `j`. */
  function EntryAt(chain: Chain, b: nat, blockHash: Hash32, txs: seq<Hash32>, j: nat, p: nat): RpcLog
    requires j < |txs| && (b, j) in chain.receipts && p < |chain.receipts[(b, j)].logs|
  {
    Entry(chain.receipts[(b, j)].logs[p], LogsBefore(chain, b, j) + p, Origin(txs[j], j, b, blockHash))
  }

  /** The walk over a block's transactions succeeds exactly when every
      transaction has a receipt, and then it emits every wanted log. */
  lemma {:induction false} WalkTxsComplete(chain: Chain, b: nat, blockHash: Hash32, txs: seq<Hash32>, addresses: set<Address>)
    ensures WalkTxs(chain, b, blockHash, txs, addresses).Ok? <==> forall j :: 0 <= j < |txs| ==> (b, j) in chain.receipts
    ensures WalkTxs(chain, b, blockHash, txs, addresses).Ok? ==>
      forall j, p :: 0 <= j < |txs| && Wanted(chain, addresses, b, j, p) ==>
        EntryAt(chain, b, blockHash, txs, j, p) in WalkTxs(chain, b, blockHash, txs, addresses).value.0
  {
    if txs != [] {
      var j := |txs| - 1;
      var init := txs[..j];
      WalkTxsComplete(chain, b, blockHash, init, addresses);
      var prev := WalkTxs(chain, b, blockHash, init, addresses);
      if WalkTxs(chain, b, blockHash, txs, addresses).Ok? {
        var (out, count) := prev.value;
        var all := WalkTxs(chain, b, blockHash, txs, addresses).value.0;
        forall j', p | 0 <= j' < |txs| && Wanted(chain, addresses, b, j', p)
          ensures EntryAt(chain, b, blockHash, txs, j', p) in all
        {
          if j' < j {
            assert init[j'] == txs[j'];
            assert EntryAt(chain, b, blockHash, init, j', p) == EntryAt(chain, b, blockHash, txs, j', p);
          } else {
            var receipt := chain.receipts[(b, j)];
            EmitReceiptExact(receipt.logs, addresses, count, Origin(txs[j], j, b, blockHash));
          }
        }
      } else if prev.Ok? {
        assert (b, j) !in chain.receipts;
      } else {
        var k :| 0 <= k < |init| && (b, k) !in chain.receipts;
      }
    }
  }

  /** `rl` is an accepted log of a succeeded receipt of a stored block. */
  ghost predicate FromChain(chain: Chain, addresses: set<Address>, rl: RpcLog)
  {
    && rl.blockNumber in chain.bodies
    && rl.blockNumber in chain.headerHashes
    && FromTxs(chain, rl.blockNumber, chain.headerHashes[rl.blockNumber], chain.bodies[rl.blockNumber], addresses, rl)
  }

  /** The store has block `b`'s body, its header and a receipt for each of
      its transactions. */
  ghost predicate BlockStored(chain: Chain, b: nat)
  {
    && b in chain.bodies
    && b in chain.headerHashes
    && forall j :: 0 <= j < |chain.bodies[b]| ==> (b, j) in chain.receipts
  }

  /** Log `p` of transaction `j` of stored block `b` is wanted by the address
      filter. */
  ghost predicate WantedInChain(chain: Chain, addresses: set<Address>, b: nat, j: nat, p: nat)
  {
    && b in chain.bodies
    && b in chain.headerHashes
    && j < |chain.bodies[b]|
    && Wanted(chain, addresses, b, j, p)
  }

  function ChainEntry(chain: Chain, addresses: set<Address>, b: nat, j: nat, p: nat): RpcLog
    requires WantedInChain(chain, addresses, b, j, p)
  {
    EntryAt(chain, b, chain.headerHashes[b], chain.bodies[b], j, p)
  }

  /** A block's walk succeeds exactly when the block is stored; it emits
      precisely the wanted logs of the block, in order. */
  lemma BlockExact(chain: Chain, b: nat, addresses: set<Address>)
    ensures WalkBlock(chain, b, addresses).Ok? <==> BlockStored(chain, b)
    ensures WalkBlock(chain, b, addresses).Ok? ==>
      var out := WalkBlock(chain, b, addresses).value;
      && (forall rl :: rl in out ==> rl.blockNumber == b && FromChain(chain, addresses, rl))
      && (forall j, p :: WantedInChain(chain, addresses, b, j, p) ==> ChainEntry(chain, addresses, b, j, p) in out)
      && Ordered(out)
  {
    if b in chain.bodies && b in chain.headerHashes {
      WalkTxsComplete(chain, b, chain.headerHashes[b], chain.bodies[b], addresses);
      if WalkBlock(chain, b, addresses).Ok? {
        WalkTxsSound(chain, b, chain.headerHashes[b], chain.bodies[b], addresses);
      }
    }
  }

  /** The walk over `n` blocks from `from` succeeds exactly when all of them
      are stored. */
  lemma {:induction false} WalkBlocksOk(chain: Chain, from: nat, n: nat, addresses: set<Address>)
    ensures WalkBlocks(chain, from, n, addresses).Ok? <==> forall b :: from <= b < from + n ==> BlockStored(chain, b)
  {
    if n > 0 {
      WalkBlocksOk(chain, from, n - 1, addresses);
      BlockExact(chain, from + n - 1, addresses);
    }
  }

  /** Every log the walk over `n` blocks emits is an accepted log of a
      succeeded receipt in those blocks, and the logs come out ordered by
      block, transaction and log index. */
  lemma {:induction false} WalkBlocksSound(chain: Chain, from: nat, n: nat, addresses: set<Address>)
    requires WalkBlocks(chain, from, n, addresses).Ok?
    ensures var out := WalkBlocks(chain, from, n, addresses).value;
      && (forall rl :: rl in out ==> from <= rl.blockNumber < from + n && FromChain(chain, addresses, rl))
      && Ordered(out)
  {
    if n > 0 {
      var last := from + n - 1;
      WalkBlocksSound(chain, from, n - 1, addresses);
      BlockExact(chain, last, addresses);
      var out := WalkBlocks(chain, from, n - 1, addresses).value;
      var more := WalkBlock(chain, last, addresses).value;
      forall x, y | x in out && y in more
        ensures Precedes(x, y)
      {
      }
      OrderedAppend(out, more);
    }
  }

  /** The walk over `n` blocks emits every wanted log of those blocks. */
  lemma {:induction false} WalkBlocksComplete(chain: Chain, from: nat, n: nat, addresses: set<Address>)
    requires WalkBlocks(chain, from, n, addresses).Ok?
    ensures forall b, j, p :: from <= b < from + n && WantedInChain(chain, addresses, b, j, p) ==>
      ChainEntry(chain, addresses, b, j, p) in WalkBlocks(chain, from, n, addresses).value
  {
    if n > 0 {
      WalkBlocksComplete(chain, from, n - 1, addresses);
      BlockExact(chain, from + n - 1, addresses);
    }
  }

  /** The topic filter keeps exactly the matching logs, and keeps them in
      order. */
  lemma {:induction false} FilterByTopicsExact(logs: seq<RpcLog>, filters: seq<TopicFilter>)
    ensures forall rl :: rl in FilterByTopics(logs, filters) <==> rl in logs && TopicsMatch(filters, rl.log.topics)
    ensures Ordered(logs) ==> Ordered(FilterByTopics(logs, filters))
  {
    if logs != [] {
      var init := logs[..|logs| - 1];
      var last := logs[|logs| - 1];
      FilterByTopicsExact(init, filters);
      assert logs == init + [last];
      if Ordered(logs) {
        assert Ordered(init);
        var tail := if TopicsMatch(filters, last.log.topics) then [last] else [];
        forall x, y | x in FilterByTopics(init, filters) && y in tail
          ensures Precedes(x, y)
        {
          var i :| 0 <= i < |init| && init[i] == x;
          assert logs[i] == x;
        }
        OrderedAppend(FilterByTopics(init, filters), tail);
      }
    }
  }

  /** An empty topic filter keeps every log, so skipping the filter when
      there are no topics changes nothing. */
  lemma {:induction false} EmptyTopicFilterKeepsAll(logs: seq<RpcLog>)
    ensures FilterByTopics(logs, []) == logs
  {
    if logs != [] {
      EmptyTopicFilterKeepsAll(logs[..|logs| - 1]);
      assert logs == logs[..|logs| - 1] + [logs[|logs| - 1]];
    }
  }

  // ---------------------------------------------------------------------
  // Properties of the endpoint

  /** The request's failures: an identifier the store cannot resolve is a
      wrong parameter, and a range whose start lies after its end is
      rejected. */
  lemma FetchLogsRejects(filter: LogsFilter, chain: Chain, resolve: BlockIdentifier -> Result<Option<nat>, RpcErr>)
    ensures resolve(filter.fromBlock) == Ok(None) ==> FetchLogs(filter, chain, resolve) == Err(WrongParam("fromBlock"))
    ensures resolve(filter.fromBlock).Ok? && resolve(filter.fromBlock).value.Some? && resolve(filter.toBlock) == Ok(None) ==>
      FetchLogs(filter, chain, resolve) == Err(WrongParam("toBlock"))
    ensures resolve(filter.fromBlock).Ok? && resolve(filter.fromBlock).value.Some? &&
            resolve(filter.toBlock).Ok? && resolve(filter.toBlock).value.Some? &&
            resolve(filter.fromBlock).value.value > resolve(filter.toBlock).value.value ==>
      FetchLogs(filter, chain, resolve) == Err(BadParams(EmptyRangeMsg))
  {
  }

  /** With the range resolved to `from..=to`, the endpoint succeeds exactly
      when every block in the range is stored, and its answer is the walk's
      logs through the topic filter (an empty filter keeping them all). */
  lemma FetchLogsOk(filter: LogsFilter, chain: Chain, resolve: BlockIdentifier -> Result<Option<nat>, RpcErr>,
                    from: nat, to: nat)
    requires resolve(filter.fromBlock) == Ok(Some(from)) && resolve(filter.toBlock) == Ok(Some(to)) && from <= to
    ensures FetchLogs(filter, chain, resolve).Ok? <==> forall b :: from <= b <= to ==> BlockStored(chain, b)
    ensures FetchLogs(filter, chain, resolve).Ok? ==>
      var walked := WalkBlocks(chain, from, to - from + 1, AddressSet(filter.addressFilters));
      walked.Ok? && FetchLogs(filter, chain, resolve).value == FilterByTopics(walked.value, filter.topics)
  {
    var addresses := AddressSet(filter.addressFilters);
    WalkBlocksOk(chain, from, to - from + 1, addresses);
    if WalkBlocks(chain, from, to - from + 1, addresses).Ok? {
      EmptyTopicFilterKeepsAll(WalkBlocks(chain, from, to - from + 1, addresses).value);
    }
  }

  /** Every log the endpoint answers is an accepted log of a succeeded
      receipt in the range that matches the topic filter, none is marked
      removed, and they are ordered by block, transaction and log index. */
  lemma FetchLogsSound(filter: LogsFilter, chain: Chain, resolve: BlockIdentifier -> Result<Option<nat>, RpcErr>,
                       from: nat, to: nat)
    requires resolve(filter.fromBlock) == Ok(Some(from)) && resolve(filter.toBlock) == Ok(Some(to)) && from <= to
    requires FetchLogs(filter, chain, resolve).Ok?
    ensures var out := FetchLogs(filter, chain, resolve).value;
      && (forall rl :: rl in out ==>
            && from <= rl.blockNumber <= to
            && FromChain(chain, AddressSet(filter.addressFilters), rl)
            && !rl.removed
            && TopicsMatch(filter.topics, rl.log.topics))
      && Ordered(out)
  {
    var n := to - from + 1;
    FetchLogsOk(filter, chain, resolve, from, to);
    var logs := WalkBlocks(chain, from, n, AddressSet(filter.addressFilters)).value;
    WalkBlocksSound(chain, from, n, AddressSet(filter.addressFilters));
    FilterByTopicsExact(logs, filter.topics);
  }

  /** The endpoint answers every log of a succeeded receipt in the range
      that passes the address and topic filters. */
  lemma FetchLogsComplete(filter: LogsFilter, chain: Chain, resolve: BlockIdentifier -> Result<Option<nat>, RpcErr>,
                          from: nat, to: nat)
    requires resolve(filter.fromBlock) == Ok(Some(from)) && resolve(filter.toBlock) == Ok(Some(to)) && from <= to
    requires FetchLogs(filter, chain, resolve).Ok?
    ensures var addresses := AddressSet(filter.addressFilters);
      forall b, j, p :: from <= b <= to && WantedInChain(chain, addresses, b, j, p) ==>
        (TopicsMatch(filter.topics, ChainEntry(chain, addresses, b, j, p).log.topics) ==>
         ChainEntry(chain, addresses, b, j, p) in FetchLogs(filter, chain, resolve).value)
  {
    var n := to - from + 1;
    FetchLogsOk(filter, chain, resolve, from, to);
    var logs := WalkBlocks(chain, from, n, AddressSet(filter.addressFilters)).value;
    WalkBlocksComplete(chain, from, n, AddressSet(filter.addressFilters));
    FilterByTopicsExact(logs, filter.topics);
  }

  // ---------------------------------------------------------------------
  // The endpoint's loops

  lemma {:induction false} WalkBlocksErrorPersists(chain: Chain, from: nat, k: nat, n: nat, addresses: set<Address>)
    requires k <= n
    requires WalkBlocks(chain, from, k, addresses).Err?
    ensures WalkBlocks(chain, from, n, addresses) == WalkBlocks(chain, from, k, addresses)
    decreases n
  {
    if k < n {
      WalkBlocksErrorPersists(chain, from, k, n - 1, addresses);
    }
  }

  lemma WalkTxsPrefix(chain: Chain, b: nat, blockHash: Hash32, txs: seq<Hash32>, j: nat, addresses: set<Address>)
    requires j < |txs|
    ensures WalkTxs(chain, b, blockHash, txs[..j], addresses).Err? ==>
              WalkTxs(chain, b, blockHash, txs[..j + 1], addresses) == WalkTxs(chain, b, blockHash, txs[..j], addresses)
    ensures WalkTxs(chain, b, blockHash, txs[..j], addresses).Ok? ==>
              WalkTxs(chain, b, blockHash, txs[..j + 1], addresses)
              == WalkTx(chain, b, blockHash, txs[j], j, WalkTxs(chain, b, blockHash, txs[..j], addresses).value, addresses)
  {
    assert txs[..j + 1][..j] == txs[..j];
  }

  lemma {:induction false} WalkTxsErrorPersists(chain: Chain, b: nat, blockHash: Hash32, txs: seq<Hash32>, j: nat, addresses: set<Address>)
    requires j <= |txs|
    requires WalkTxs(chain, b, blockHash, txs[..j], addresses).Err?
    ensures WalkTxs(chain, b, blockHash, txs, addresses) == WalkTxs(chain, b, blockHash, txs[..j], addresses)
    decreases |txs| - j
  {
    if j < |txs| {
      WalkTxsPrefix(chain, b, blockHash, txs, j, addresses);
      WalkTxsErrorPersists(chain, b, blockHash, txs, j + 1, addresses);
    } else {
      assert txs[..j] == txs;
    }
  }

  lemma EmitReceiptPrefix(logs: seq<Log>, k: nat, addresses: set<Address>, start: nat, at: Origin)
    requires k < |logs|
    ensures EmitReceipt(logs[..k + 1], addresses, start, at)
         == EmitReceipt(logs[..k], addresses, start, at)
            + (if Accepted(addresses, logs[k].address) then [Entry(logs[k], start + k, at)] else [])
  {
    assert logs[..k + 1][..k] == logs[..k];
  }

  lemma FilterPrefix(logs: seq<RpcLog>, i: nat, filters: seq<TopicFilter>)
    requires i < |logs|
    ensures FilterByTopics(logs[..i + 1], filters)
         == FilterByTopics(logs[..i], filters) + (if TopicsMatch(filters, logs[i].log.topics) then [logs[i]] else [])
  {
    assert logs[..i + 1][..i] == logs[..i];
  }

  /** The transactions of block `b`: fetch each receipt and number the logs
      of the succeeded ones from the block's running log index, appending
      the accepted ones to `logs`. */
  method CollectBlock(chain: Chain, b: nat, addresses: set<Address>, logs: seq<RpcLog>)
    returns (r: Result<seq<RpcLog>, RpcErr>)
    ensures WalkBlock(chain, b, addresses).Err? ==> r == Err(WalkBlock(chain, b, addresses).error)
    ensures WalkBlock(chain, b, addresses).Ok? ==> r == Ok(logs + WalkBlock(chain, b, addresses).value)
  {
    if b !in chain.bodies {
      return Err(Internal(MissingBodyMsg(b)));
    }
    var txs := chain.bodies[b];
    if b !in chain.headerHashes {
      return Err(Internal(MissingHeaderMsg(b)));
    }
    var blockHash := chain.headerHashes[b];
    var collected := logs;
    ghost var blockLogs: seq<RpcLog> := [];
    var blockLogIndex: nat := 0;
    for txIndex := 0 to |txs|
      invariant WalkTxs(chain, b, blockHash, txs[..txIndex], addresses) == Ok((blockLogs, blockLogIndex))
      invariant collected == logs + blockLogs
    {
      WalkTxsPrefix(chain, b, blockHash, txs, txIndex, addresses);
      if (b, txIndex) !in chain.receipts {
        WalkTxsErrorPersists(chain, b, blockHash, txs, txIndex + 1, addresses);
        return Err(Internal(MissingReceiptMsg));
      }
      var receipt := chain.receipts[(b, txIndex)];
      if receipt.succeeded {
        ghost var at := Origin(txs[txIndex], txIndex, b, blockHash);
        ghost var start := blockLogIndex;
        ghost var before := collected;
        for k := 0 to |receipt.logs|
          invariant collected == before + EmitReceipt(receipt.logs[..k], addresses, start, at)
          invariant blockLogIndex == start + k
        {
          EmitReceiptPrefix(receipt.logs, k, addresses, start, at);
          var log := receipt.logs[k];
          if addresses == {} || log.address in addresses {
            collected := collected + [RpcLog(log, blockLogIndex, txs[txIndex], txIndex, b, blockHash, false)];
          }
          blockLogIndex := blockLogIndex + 1;
        }
        assert receipt.logs[..|receipt.logs|] == receipt.logs;
        blockLogs := blockLogs + EmitReceipt(receipt.logs, addresses, start, at);
      }
    }
    assert txs[..|txs|] == txs;
    return Ok(collected);
  }

  /** The topic filter over the collected logs, in their order. */
  method KeepMatching(logs: seq<RpcLog>, filters: seq<TopicFilter>) returns (kept: seq<RpcLog>)
    ensures kept == FilterByTopics(logs, filters)
  {
    kept := [];
    for i := 0 to |logs|
      invariant kept == FilterByTopics(logs[..i], filters)
    {
      FilterPrefix(logs, i, filters);
      var keep := MatchesTopics(filters, logs[i].log.topics);
      if keep {
        kept := kept + [logs[i]];
      }
    }
    assert logs[..|logs|] == logs;
  }

  /** `fetch_logs_with_filter`: resolve the range, walk its blocks in order,
      then apply the topic filter when there is one. */
  method FetchLogsWithFilter(filter: LogsFilter, chain: Chain, resolve: BlockIdentifier -> Result<Option<nat>, RpcErr>)
    returns (r: Result<seq<RpcLog>, RpcErr>)
    ensures r == FetchLogs(filter, chain, resolve)
  {
    var fromBlock := resolve(filter.fromBlock);
    if fromBlock.Err? {
      return Err(fromBlock.error);
    }
    if fromBlock.value.None? {
      return Err(WrongParam("fromBlock"));
    }
    var toBlock := resolve(filter.toBlock);
    if toBlock.Err? {
      return Err(toBlock.error);
    }
    if toBlock.value.None? {
      return Err(WrongParam("toBlock"));
    }
    var from, to := fromBlock.value.value, toBlock.value.value;
    if from > to {
      return Err(BadParams(EmptyRangeMsg));
    }
    var addresses := AddressSet(filter.addressFilters);
    var logs: seq<RpcLog> := [];
    for b := from to to + 1
      invariant WalkBlocks(chain, from, b - from, addresses) == Ok(logs)
    {
      var next := CollectBlock(chain, b, addresses, logs);
      if next.Err? {
        WalkBlocksErrorPersists(chain, from, b - from + 1, to - from + 1, addresses);
        return Err(next.error);
      }
      logs := next.value;
    }
    if filter.topics == [] {
      return Ok(logs);
    }
    var filtered := KeepMatching(logs, filter.topics);
    return Ok(filtered);
  }
}
