/** The on-disk encoding of Merkle-Patricia trie nodes: one tag byte naming
    the variant, then the variant's fields as an RLP list. This is the
    persistence format only; the encoding hashed to obtain a node's content
    address is a different one and is represented here by the `hashOf`
    parameter (the node's `compute_hash`). */
module TrieCodec {
  import opened Common
  import opened Rlp

  /** An inline node's own encoding, stored in a 31-byte buffer. */
  type InlineBytes = s: seq<byte> | |s| < 32

  /** A path of half-byte trie positions, one nibble per byte. */
  type Nibbles = seq<byte>

  datatype NodeHash = Hashed(digest: Hash32) | Inline(encoded: InlineBytes)

  datatype Node =
    | Branch(choices: seq<NodeRef>, value: seq<byte>)
    | Extension(prefix: Nibbles, child: NodeRef)
    | Leaf(partial: Nibbles, value: seq<byte>)

  /** A child: either the node itself or the hash under which it is stored. */
  datatype NodeRef = Embedded(node: Node) | Hash(hash: NodeHash)

  datatype NodeType = BranchType | ExtensionType | LeafType

  const BranchArity: nat := 16
  const ChoicesLenErrorMsg: string := "Error decoding field 'choices' of type [H256;16]: Invalid Length"
  /** Upper bound on every byte-string field, far above anything addressable;
      it keeps every list payload below the eight-byte length limit. */
  const MaxFieldLen: nat := 0x4000_0000_0000_0000

  function TypeOf(n: Node): NodeType
  {
    match n
    case Branch(_, _) => BranchType
    case Extension(_, _) => ExtensionType
    case Leaf(_, _) => LeafType
  }

  /** `node_type as u8`: the discriminant written in front of the fields. */
  function Tag(t: NodeType): (r: byte)
    ensures NodeTypeFromU8(r) == Some(t)
  {
    match t
    case BranchType => 0
    case ExtensionType => 1
    case LeafType => 2
  }

  /** `NodeType::from_u8`. */
  function NodeTypeFromU8(b: byte): (r: Option<NodeType>)
    ensures r.Some? <==> b <= 2
  {
    if b == 0 then Some(BranchType)
    else if b == 1 then Some(ExtensionType)
    else if b == 2 then Some(LeafType)
    else None
  }

  lemma TagIsInjective(b: byte)
    requires NodeTypeFromU8(b).Some?
    ensures Tag(NodeTypeFromU8(b).value) == b
  {
  }

  /** A branch has its sixteen slots. */
  predicate WellFormed(n: Node)
  {
    n.Branch? ==> |n.choices| == BranchArity
  }

  /** The node can be written: it is well formed and its byte fields fit the
      length prefix. */
  predicate Encodable(n: Node)
  {
    WellFormed(n) &&
    match n
    case Branch(_, value) => |value| < MaxFieldLen
    case Extension(prefix, _) => |prefix| < MaxFieldLen
    case Leaf(partial, value) => |partial| < MaxFieldLen && |value| < MaxFieldLen
  }

  /** Every child the node refers to is a hash reference. */
  predicate ChildrenHashed(n: Node)
  {
    match n
    case Branch(choices, _) => forall i :: 0 <= i < |choices| ==> choices[i].Hash?
    case Extension(_, child) => child.Hash?
    case Leaf(_, _) => true
  }

  /** `NodeRef::compute_hash`: an embedded node is hashed, a hash is itself. */
  function RefHash(r: NodeRef, hashOf: Node -> NodeHash): NodeHash
  {
    match r
    case Embedded(n) => hashOf(n)
    case Hash(h) => h
  }

  /** The node as a decoder rebuilds it: every child replaced by the hash
      reference the encoder wrote for it. */
  function Hashify(n: Node, hashOf: Node -> NodeHash): (r: Node)
    ensures TypeOf(r) == TypeOf(n) && ChildrenHashed(r)
    ensures WellFormed(n) ==> WellFormed(r)
  {
    match n
    case Branch(choices, value) =>
      Branch(seq(|choices|, i requires 0 <= i < |choices| => Hash(RefHash(choices[i], hashOf))), value)
    case Extension(prefix, child) => Extension(prefix, Hash(RefHash(child, hashOf)))
    case Leaf(partial, value) => n
  }

  lemma HashifyKeepsHashedNodes(n: Node, hashOf: Node -> NodeHash)
    requires ChildrenHashed(n)
    ensures Hashify(n, hashOf) == n
  {
    if n.Branch? {
      assert Hashify(n, hashOf).choices == n.choices;
    }
  }

  /** The bytes a hash is written as (`NodeHash::as_ref`). */
  function HashBytes(h: NodeHash): (r: seq<byte>)
    ensures |r| <= 32
  {
    match h
    case Hashed(d) => d
    case Inline(e) => e
  }

  /** `NodeHash::from_slice`: shorter than 32 bytes is an inline node. */
  function HashFromSlice(b: seq<byte>): (r: Result<NodeHash, DecodeError>)
    ensures r.Ok? <==> |b| <= 32
    ensures r.Ok? ==> HashBytes(r.value) == b
  {
    if |b| < 32 then Ok(Inline(b))
    else if |b| == 32 then Ok(Hashed(b))
    else Err(MalformedData)
  }

  function EncodeHash(h: NodeHash): (r: seq<byte>)
    ensures |r| <= 33
  {
    EncodeBytes(HashBytes(h))
  }

  /** The items of a hash list, back to back. */
  function EncodeHashes(hs: seq<NodeHash>): (r: seq<byte>)
    ensures |r| <= 33 * |hs|
  {
    if hs == [] then [] else EncodeHash(hs[0]) + EncodeHashes(hs[1..])
  }

  function DecodeHash(s: seq<byte>): (r: Result<(NodeHash, seq<byte>), DecodeError>)
    ensures r.Ok? ==> |r.value.1| < |s|
  {
    match DecodeBytes(s)
    case Err(e) => Err(e)
    case Ok((b, rest)) =>
      match HashFromSlice(b)
      case Err(e) => Err(e)
      case Ok(h) => Ok((h, rest))
  }

  /** Reads hash items until the list payload is used up. */
  function DecodeHashes(payload: seq<byte>): (r: Result<seq<NodeHash>, DecodeError>)
    decreases |payload|
  {
    if payload == [] then Ok([])
    else
      match DecodeHash(payload)
      case Err(e) => Err(e)
      case Ok((h, rest)) =>
        match DecodeHashes(rest)
        case Err(e) => Err(e)
        case Ok(hs) => Ok([h] + hs)
  }

  lemma HashRoundTrip(h: NodeHash, rest: seq<byte>)
    ensures DecodeHash(EncodeHash(h) + rest) == Ok((h, rest))
  {
    BytesRoundTrip(HashBytes(h), rest);
  }

  lemma {:induction false} HashesRoundTrip(hs: seq<NodeHash>)
    ensures DecodeHashes(EncodeHashes(hs)) == Ok(hs)
  {
    if hs != [] {
      var tail := EncodeHashes(hs[1..]);
      var s := EncodeHashes(hs);
      assert s == EncodeHash(hs[0]) + tail;
      HashRoundTrip(hs[0], tail);
      assert DecodeHash(s) == Ok((hs[0], tail));
      HashesRoundTrip(hs[1..]);
      assert [hs[0]] + hs[1..] == hs;
    }
  }

  /** `decode_field::<Vec<NodeHash>>`: a list of hash items. */
  function HashListField(d: Decoder, name: string): (r: Result<(seq<NodeHash>, Decoder), DecodeError>)
    ensures r.Ok? ==> r.value.1.remaining == d.remaining
  {
    match DecodeList(d.payload)
    case Err(e) => Err(Field(name, e))
    case Ok((payload, rest)) =>
      match DecodeHashes(payload)
      case Err(e) => Err(Field(name, e))
      case Ok(hs) => Ok((hs, Decoder(rest, d.remaining)))
  }

  /** `decode_field::<NodeHash>`. */
  function HashField(d: Decoder, name: string): (r: Result<(NodeHash, Decoder), DecodeError>)
    ensures r.Ok? ==> r.value.1.remaining == d.remaining
  {
    match DecodeHash(d.payload)
    case Err(e) => Err(Field(name, e))
    case Ok((h, rest)) => Ok((h, Decoder(rest, d.remaining)))
  }

  // ---- Encoding ----

  function ChoiceHashes(choices: seq<NodeRef>, hashOf: Node -> NodeHash): (r: seq<NodeHash>)
    ensures |r| == |choices|
  {
    seq(|choices|, i requires 0 <= i < |choices| => RefHash(choices[i], hashOf))
  }

  /** The fields of a node, in their fixed order, as one RLP list. */
  function EncodeFields(n: Node, hashOf: Node -> NodeHash): seq<byte>
    requires Encodable(n)
  {
    match n
    case Branch(choices, value) =>
      var hashes := EncodeHashes(ChoiceHashes(choices, hashOf));
      EncodeList(EncodeList(hashes) + EncodeBytes(value))
    case Extension(prefix, child) =>
      EncodeList(EncodeBytes(prefix) + EncodeHash(RefHash(child, hashOf)))
    case Leaf(partial, value) =>
      EncodeList(EncodeBytes(partial) + EncodeBytes(value))
  }

  /** `Node::encode`: the variant's tag byte followed by its field list. */
  function Encode(n: Node, hashOf: Node -> NodeHash): (r: seq<byte>)
    requires Encodable(n)
    ensures |r| > 1 && NodeTypeFromU8(r[0]) == Some(TypeOf(n))
  {
    [Tag(TypeOf(n))] + EncodeFields(n, hashOf)
  }

  // ---- Decoding ----

  function DecodeBranch(rlp: seq<byte>): (r: Result<(Node, seq<byte>), DecodeError>)
    ensures r.Ok? ==> r.value.0.Branch? && WellFormed(r.value.0) && ChildrenHashed(r.value.0)
    ensures r.Ok? ==> |r.value.1| < |rlp|
  {
    match NewDecoder(rlp)
    case Err(e) => Err(e)
    case Ok(d) =>
      match HashListField(d, "choices")
      case Err(e) => Err(e)
      case Ok((hashes, d1)) =>
        var choices := seq(|hashes|, i requires 0 <= i < |hashes| => Hash(hashes[i]));
        if |choices| != BranchArity then Err(Custom(ChoicesLenErrorMsg))
        else
          match BytesField(d1, "value")
          case Err(e) => Err(e)
          case Ok((value, d2)) =>
            match Finish(d2)
            case Err(e) => Err(e)
            case Ok(rest) => Ok((Branch(choices, value), rest))
  }

  function DecodeExtension(rlp: seq<byte>): (r: Result<(Node, seq<byte>), DecodeError>)
    ensures r.Ok? ==> r.value.0.Extension? && ChildrenHashed(r.value.0)
    ensures r.Ok? ==> |r.value.1| < |rlp|
  {
    match NewDecoder(rlp)
    case Err(e) => Err(e)
    case Ok(d) =>
      match BytesField(d, "prefix")
      case Err(e) => Err(e)
      case Ok((prefix, d1)) =>
        match HashField(d1, "child")
        case Err(e) => Err(e)
        case Ok((child, d2)) =>
          match Finish(d2)
          case Err(e) => Err(e)
          case Ok(rest) => Ok((Extension(prefix, Hash(child)), rest))
  }

  function DecodeLeaf(rlp: seq<byte>): (r: Result<(Node, seq<byte>), DecodeError>)
    ensures r.Ok? ==> r.value.0.Leaf?
    ensures r.Ok? ==> |r.value.1| < |rlp|
  {
    match NewDecoder(rlp)
    case Err(e) => Err(e)
    case Ok(d) =>
      match BytesField(d, "partial")
      case Err(e) => Err(e)
      case Ok((partial, d1)) =>
        match BytesField(d1, "value")
        case Err(e) => Err(e)
        case Ok((value, d2)) =>
          match Finish(d2)
          case Err(e) => Err(e)
          case Ok(rest) => Ok((Leaf(partial, value), rest))
  }

  /** `Node::decode_unfinished`: read the tag, dispatch on it, and return the
      node with the bytes that follow it. */
  function DecodeUnfinished(rlp: seq<byte>): (r: Result<(Node, seq<byte>), DecodeError>)
    ensures |rlp| == 0 ==> r == Err(InvalidLength)
    ensures |rlp| > 0 && rlp[0] > 2 ==> r == Err(MalformedData)
    ensures r.Ok? ==> NodeTypeFromU8(rlp[0]) == Some(TypeOf(r.value.0))
    ensures r.Ok? ==> WellFormed(r.value.0) && ChildrenHashed(r.value.0)
    ensures r.Ok? ==> |r.value.1| < |rlp| - 1
  {
    if |rlp| == 0 then Err(InvalidLength)
    else
      match NodeTypeFromU8(rlp[0])
      case None => Err(MalformedData)
      case Some(BranchType) => DecodeBranch(rlp[1..])
      case Some(ExtensionType) => DecodeExtension(rlp[1..])
      case Some(LeafType) => DecodeLeaf(rlp[1..])
  }

  /** `RLPDecode::decode`: a whole record, nothing may follow the node. */
  function Decode(rlp: seq<byte>): (r: Result<Node, DecodeError>)
    ensures r.Ok? <==> DecodeUnfinished(rlp).Ok? && DecodeUnfinished(rlp).value.1 == []
  {
    match DecodeUnfinished(rlp)
    case Err(e) => Err(e)
    case Ok((n, rest)) => if rest != [] then Err(InvalidLength) else Ok(n)
  }

  // ---- Laws ----

  lemma ChoiceHashesOfHashify(n: Node, hashOf: Node -> NodeHash)
    requires n.Branch?
    ensures var hs := ChoiceHashes(n.choices, hashOf);
            Hashify(n, hashOf).choices == seq(|hs|, i requires 0 <= i < |hs| => Hash(hs[i]))
  {
  }

  lemma BranchFieldsRoundTrip(n: Node, hashOf: Node -> NodeHash, rest: seq<byte>)
    requires Encodable(n) && n.Branch?
    ensures DecodeBranch(EncodeFields(n, hashOf) + rest) == Ok((Hashify(n, hashOf), rest))
  {
    var hs := ChoiceHashes(n.choices, hashOf);
    var list := EncodeHashes(hs);
    var payload := EncodeList(list) + EncodeBytes(n.value);
    ListRoundTrip(payload, rest);
    ListRoundTrip(list, EncodeBytes(n.value));
    HashesRoundTrip(hs);
    BytesRoundTrip(n.value, []);
    assert EncodeBytes(n.value) + [] == EncodeBytes(n.value);
    ChoiceHashesOfHashify(n, hashOf);
  }

  lemma ExtensionFieldsRoundTrip(n: Node, hashOf: Node -> NodeHash, rest: seq<byte>)
    requires Encodable(n) && n.Extension?
    ensures DecodeExtension(EncodeFields(n, hashOf) + rest) == Ok((Hashify(n, hashOf), rest))
  {
    var h := RefHash(n.child, hashOf);
    var payload := EncodeBytes(n.prefix) + EncodeHash(h);
    ListRoundTrip(payload, rest);
    BytesRoundTrip(n.prefix, EncodeHash(h));
    BytesRoundTrip(HashBytes(h), []);
    assert EncodeHash(h) + [] == EncodeHash(h);
  }

  lemma LeafFieldsRoundTrip(n: Node, hashOf: Node -> NodeHash, rest: seq<byte>)
    requires Encodable(n) && n.Leaf?
    ensures DecodeLeaf(EncodeFields(n, hashOf) + rest) == Ok((Hashify(n, hashOf), rest))
  {
    var payload := EncodeBytes(n.partial) + EncodeBytes(n.value);
    ListRoundTrip(payload, rest);
    BytesRoundTrip(n.partial, EncodeBytes(n.value));
    BytesRoundTrip(n.value, []);
    assert EncodeBytes(n.value) + [] == EncodeBytes(n.value);
  }

  /** The tag byte selects the variant decoder, which gets the rest. */
  lemma TagDispatch(t: NodeType, body: seq<byte>)
    ensures DecodeUnfinished([Tag(t)] + body)
         == match t
            case BranchType => DecodeBranch(body)
            case ExtensionType => DecodeExtension(body)
            case LeafType => DecodeLeaf(body)
  {
    assert ([Tag(t)] + body)[1..] == body;
  }

  /** The record is the tag byte in front of the field list. */
  lemma EncodeSplits(n: Node, hashOf: Node -> NodeHash, rest: seq<byte>)
    requires Encodable(n)
    ensures Encode(n, hashOf) + rest == [Tag(TypeOf(n))] + (EncodeFields(n, hashOf) + rest)
  {
  }

  /** Decoding what was encoded, followed by anything, gives back the node
      with its children as hash references, and exactly the trailing bytes. */
  lemma RoundTrip(n: Node, hashOf: Node -> NodeHash, rest: seq<byte>)
    requires Encodable(n)
    ensures DecodeUnfinished(Encode(n, hashOf) + rest) == Ok((Hashify(n, hashOf), rest))
  {
    EncodeSplits(n, hashOf, rest);
    var body := EncodeFields(n, hashOf) + rest;
    TagDispatch(TypeOf(n), body);
    if n.Branch? {
      BranchFieldsRoundTrip(n, hashOf, rest);
    } else if n.Extension? {
      ExtensionFieldsRoundTrip(n, hashOf, rest);
    } else {
      LeafFieldsRoundTrip(n, hashOf, rest);
    }
  }

  /** A stored record decodes to the node it was written from, up to hashing
      of children; a node whose children are hash references comes back as is. */
  lemma RecordRoundTrip(n: Node, hashOf: Node -> NodeHash)
    requires Encodable(n)
    ensures Decode(Encode(n, hashOf)) == Ok(Hashify(n, hashOf))
    ensures ChildrenHashed(n) ==> Decode(Encode(n, hashOf)) == Ok(n)
  {
    RoundTrip(n, hashOf, []);
    assert Encode(n, hashOf) + [] == Encode(n, hashOf);
    if ChildrenHashed(n) {
      HashifyKeepsHashedNodes(n, hashOf);
    }
  }

  /** A branch record whose choices list does not hold exactly sixteen hashes
      is refused with the arity error, whatever follows the list. */
  lemma BranchArityEnforced(hs: seq<NodeHash>, tail: seq<byte>, rest: seq<byte>)
    requires |hs| != BranchArity
    requires |EncodeHashes(hs)| + 9 + |tail| < LengthLimit
    ensures DecodeUnfinished([Tag(BranchType)] + EncodeList(EncodeList(EncodeHashes(hs)) + tail) + rest)
         == Err(Custom(ChoicesLenErrorMsg))
  {
    var list := EncodeHashes(hs);
    var payload := EncodeList(list) + tail;
    var s := [Tag(BranchType)] + EncodeList(payload) + rest;
    assert s[1..] == EncodeList(payload) + rest;
    ListRoundTrip(payload, rest);
    ListRoundTrip(list, tail);
    HashesRoundTrip(hs);
  }

  /** The encoder puts the fields in their fixed order: each field decodes,
      in turn, from the front of the list payload. */
  lemma FieldOrder(n: Node, hashOf: Node -> NodeHash)
    requires Encodable(n)
    ensures NewDecoder(EncodeFields(n, hashOf)).Ok?
    ensures var d := NewDecoder(EncodeFields(n, hashOf)).value;
      match n
      case Branch(choices, value) =>
        HashListField(d, "choices") == Ok((ChoiceHashes(choices, hashOf), Decoder(EncodeBytes(value), [])))
      case Extension(prefix, child) =>
        BytesField(d, "prefix") == Ok((prefix, Decoder(EncodeHash(RefHash(child, hashOf)), [])))
      case Leaf(partial, value) =>
        BytesField(d, "partial") == Ok((partial, Decoder(EncodeBytes(value), [])))
  {
    var f := EncodeFields(n, hashOf);
    assert f + [] == f;
    match n
    case Branch(choices, value) =>
      var hs := ChoiceHashes(choices, hashOf);
      var list := EncodeHashes(hs);
      ListRoundTrip(EncodeList(list) + EncodeBytes(value), []);
      ListRoundTrip(list, EncodeBytes(value));
      HashesRoundTrip(hs);
    case Extension(prefix, child) =>
      var h := EncodeHash(RefHash(child, hashOf));
      ListRoundTrip(EncodeBytes(prefix) + h, []);
      BytesRoundTrip(prefix, h);
    case Leaf(partial, value) =>
      ListRoundTrip(EncodeBytes(partial) + EncodeBytes(value), []);
      BytesRoundTrip(partial, EncodeBytes(value));
  }
}
