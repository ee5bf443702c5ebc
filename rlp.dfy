/** A minimal Recursive Length Prefix codec, as defined in Appendix B of the
    Ethereum Yellow Paper: byte strings and list headers with their short and
    long (big-endian length) forms, and the field-by-field list decoder that
    the trie node codec is written against. */
module Rlp {
  import opened Common

  datatype DecodeError =
    | InvalidLength
    | MalformedData
    | UnexpectedList
    | UnexpectedString
    | Custom(message: string)
      /** a field decoder failed; the library wraps the cause with the field's name */
    | Field(name: string, cause: DecodeError)

  /** Prefix bases of the two item kinds. */
  const StringOffset: byte := 0x80
  const ListOffset: byte := 0xc0
  /** Longest payload that fits the one-byte short form. */
  const ShortLimit: nat := 55
  /** Payload lengths must fit in eight big-endian bytes (2^64). */
  const LengthLimit: nat := 0x1_0000_0000_0000_0000

  function Pow256(k: nat): (r: nat)
    ensures r >= 1
  {
    if k == 0 then 1 else 256 * Pow256(k - 1)
  }

  lemma LengthLimitIsPow256()
    ensures Pow256(8) == LengthLimit
  {
    assert Pow256(1) == 0x100;
    assert Pow256(2) == 0x1_0000;
    assert Pow256(3) == 0x100_0000;
    assert Pow256(4) == 0x1_0000_0000;
    assert Pow256(5) == 0x100_0000_0000;
    assert Pow256(6) == 0x1_0000_0000_0000;
    assert Pow256(7) == 0x100_0000_0000_0000;
  }

  /** Minimal big-endian bytes of `n`: no leading zero byte, empty for 0. */
  function ToBigEndian(n: nat): (r: seq<byte>)
    ensures n == 0 <==> r == []
    ensures r != [] ==> r[0] != 0
    decreases n
  {
    if n == 0 then [] else ToBigEndian(n / 256) + [(n % 256) as byte]
  }

  function FromBigEndian(s: seq<byte>): nat
  {
    if s == [] then 0 else FromBigEndian(s[..|s| - 1]) * 256 + s[|s| - 1] as nat
  }

  lemma {:induction false} BigEndianRoundTrip(n: nat)
    ensures FromBigEndian(ToBigEndian(n)) == n
    decreases n
  {
    if n > 0 {
      var s := ToBigEndian(n);
      assert s[..|s| - 1] == ToBigEndian(n / 256);
      BigEndianRoundTrip(n / 256);
    }
  }

  lemma {:induction false} BigEndianLength(n: nat, k: nat)
    requires n < Pow256(k)
    ensures |ToBigEndian(n)| <= k
    decreases k
  {
    if n > 0 {
      assert k > 0;
      assert n / 256 < Pow256(k - 1);
      BigEndianLength(n / 256, k - 1);
    }
  }

  /** The prefix announcing a payload of `len` bytes: one byte for short
      payloads, otherwise a length-of-length byte and the big-endian length. */
  function EncodeLength(len: nat, offset: byte): (r: seq<byte>)
    requires len < LengthLimit
    requires offset == StringOffset || offset == ListOffset
    ensures 1 <= |r| <= 9
  {
    if len <= ShortLimit then [(offset as int + len) as byte]
    else
      LengthLimitIsPow256();
      BigEndianLength(len, 8);
      var be := ToBigEndian(len);
      [(offset as int + ShortLimit + |be|) as byte] + be
  }

  /** A byte string: a single byte below 0x80 is its own encoding. */
  function EncodeBytes(s: seq<byte>): (r: seq<byte>)
    requires |s| < LengthLimit
    ensures |s| < |r| <= |s| + 9 || (|s| == 1 && r == s)
  {
    if |s| == 1 && s[0] < 0x80 then s else EncodeLength(|s|, StringOffset) + s
  }

  /** A list whose items are already encoded into `payload`. */
  function EncodeList(payload: seq<byte>): (r: seq<byte>)
    requires |payload| < LengthLimit
    ensures |payload| < |r| <= |payload| + 9
  {
    EncodeLength(|payload|, ListOffset) + payload
  }

  /** One decoded item: whether it is a list, its payload and what follows it. */
  datatype Item = Item(isList: bool, payload: seq<byte>, rest: seq<byte>)

  function Slice(isList: bool, s: seq<byte>, start: nat, len: nat): (r: Result<Item, DecodeError>)
    requires 1 <= start <= |s|
    ensures r.Ok? ==> r.value.payload + r.value.rest == s[start..]
  {
    if |s| < start + len then Err(InvalidLength)
    else Ok(Item(isList, s[start..start + len], s[start + len..]))
  }

  function LongSlice(isList: bool, s: seq<byte>, lenOfLen: nat): (r: Result<Item, DecodeError>)
    requires 1 <= |s|
    ensures r.Ok? ==> |r.value.rest| < |s|
  {
    if |s| < 1 + lenOfLen then Err(InvalidLength)
    else Slice(isList, s, 1 + lenOfLen, FromBigEndian(s[1..1 + lenOfLen]))
  }

  /** Reads the prefix of the first item of `s`. */
  function DecodeItem(s: seq<byte>): (r: Result<Item, DecodeError>)
    ensures |s| == 0 ==> r == Err(InvalidLength)
    ensures r.Ok? ==> |r.value.rest| < |s|
  {
    if |s| == 0 then Err(InvalidLength)
    else
      var b := s[0] as nat;
      if b < 0x80 then Ok(Item(false, s[..1], s[1..]))
      else if b < 0xb8 then Slice(false, s, 1, b - 0x80)
      else if b < 0xc0 then LongSlice(false, s, b - 0xb7)
      else if b < 0xf8 then Slice(true, s, 1, b - 0xc0)
      else LongSlice(true, s, b - 0xf7)
  }

  /** A byte string item and the bytes after it. */
  function DecodeBytes(s: seq<byte>): (r: Result<(seq<byte>, seq<byte>), DecodeError>)
    ensures r.Ok? ==> |r.value.1| < |s|
  {
    match DecodeItem(s)
    case Err(e) => Err(e)
    case Ok(item) => if item.isList then Err(UnexpectedList) else Ok((item.payload, item.rest))
  }

  /** A list item's payload and the bytes after it. */
  function DecodeList(s: seq<byte>): (r: Result<(seq<byte>, seq<byte>), DecodeError>)
    ensures r.Ok? ==> |r.value.1| < |s|
  {
    match DecodeItem(s)
    case Err(e) => Err(e)
    case Ok(item) => if item.isList then Ok((item.payload, item.rest)) else Err(UnexpectedString)
  }

  lemma HeaderRoundTrip(offset: byte, body: seq<byte>, rest: seq<byte>)
    requires |body| < LengthLimit
    requires offset == StringOffset || offset == ListOffset
    ensures DecodeItem(EncodeLength(|body|, offset) + body + rest)
         == Ok(Item(offset == ListOffset, body, rest))
  {
    var s := EncodeLength(|body|, offset) + body + rest;
    if |body| > ShortLimit {
      LengthLimitIsPow256();
      BigEndianLength(|body|, 8);
      var be := ToBigEndian(|body|);
      assert s[1..1 + |be|] == be;
      BigEndianRoundTrip(|body|);
      assert s[1 + |be|..1 + |be| + |body|] == body;
      assert s[1 + |be| + |body|..] == rest;
    } else {
      assert s[1..1 + |body|] == body;
      assert s[1 + |body|..] == rest;
    }
  }

  lemma BytesRoundTrip(b: seq<byte>, rest: seq<byte>)
    requires |b| < LengthLimit
    ensures DecodeBytes(EncodeBytes(b) + rest) == Ok((b, rest))
  {
    if |b| == 1 && b[0] < 0x80 {
      var s := b + rest;
      assert s[..1] == b && s[1..] == rest;
    } else {
      HeaderRoundTrip(StringOffset, b, rest);
    }
  }

  lemma ListRoundTrip(payload: seq<byte>, rest: seq<byte>)
    requires |payload| < LengthLimit
    ensures DecodeList(EncodeList(payload) + rest) == Ok((payload, rest))
  {
    HeaderRoundTrip(ListOffset, payload, rest);
  }

  /** The library's struct decoder: the unread payload of the enclosing list
      and the bytes after that list. */
  datatype Decoder = Decoder(payload: seq<byte>, remaining: seq<byte>)

  /** `Decoder::new`: the input must start with a list. */
  function NewDecoder(s: seq<byte>): (r: Result<Decoder, DecodeError>)
    ensures r.Ok? ==> |r.value.remaining| < |s|
  {
    match DecodeList(s)
    case Err(e) => Err(e)
    case Ok((payload, rest)) => Ok(Decoder(payload, rest))
  }

  /** `Decoder::finish`: every field of the list must have been consumed. */
  function Finish(d: Decoder): (r: Result<seq<byte>, DecodeError>)
    ensures r.Ok? <==> d.payload == []
  {
    if d.payload == [] then Ok(d.remaining) else Err(MalformedData)
  }

  /** `decode_field` for a byte-string field. */
  function BytesField(d: Decoder, name: string): (r: Result<(seq<byte>, Decoder), DecodeError>)
    ensures r.Ok? ==> r.value.1.remaining == d.remaining
  {
    match DecodeBytes(d.payload)
    case Err(e) => Err(Field(name, e))
    case Ok((v, rest)) => Ok((v, Decoder(rest, d.remaining)))
  }

  lemma BytesFieldRoundTrip(b: seq<byte>, more: seq<byte>, remaining: seq<byte>, name: string)
    requires |b| < LengthLimit
    ensures BytesField(Decoder(EncodeBytes(b) + more, remaining), name)
         == Ok((b, Decoder(more, remaining)))
  {
    BytesRoundTrip(b, more);
  }
}
