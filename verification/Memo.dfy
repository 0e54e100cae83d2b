/** The wallet's internal memo: unified addresses, and in version 1 ephemeral address indexes, in the 511 bytes that
    follow a memo's first. The raw encoding of a unified address is that of ZIP 316, "Encoding of Unified Addresses". */
module Memo {
  import opened Wrappers
  import opened Sequences
  import opened CompactSizes

  const MEMO_LENGTH: nat := 511

  type U32 = n: nat | n < 0x1_0000_0000

  datatype Receiver =
    | P2pkh(data: seq<Byte>)
    | P2sh(data: seq<Byte>)
    | Sapling(data: seq<Byte>)
    | Orchard(data: seq<Byte>)
    | Unknown(code: U32, data: seq<Byte>)
  {
    function Typecode(): U32 {
      match this
      case P2pkh(_) => 0
      case P2sh(_) => 1
      case Sapling(_) => 2
      case Orchard(_) => 3
      case Unknown(code, _) => code
    }

    /** What any receiver of a unified address satisfies. */
    predicate WellFormed() {
      && Typecode() <= MAX_COMPACT_SIZE && |data| <= MAX_COMPACT_SIZE
      && (P2pkh? || P2sh? ==> |data| == 20)
      && (Sapling? || Orchard? ==> |data| == 43)
      && (Unknown? ==> code > 3)
    }
  }

  /** A unified address is its receivers, in no particular order. */
  datatype UnifiedAddress = UnifiedAddress(receivers: set<Receiver>)

  /** A list of receivers makes an address: no typecode twice, not both transparent kinds, not transparent only, and
      every receiver decodes to an address of its pool, which `valid` stands for. */
  predicate Canonical(valid: Receiver -> bool, items: seq<Receiver>) {
    && (forall i :: 0 <= i < |items| ==> items[i].WellFormed() && valid(items[i]))
    && (forall i, j :: 0 <= i < j < |items| ==> items[i].Typecode() != items[j].Typecode())
    && !((exists i :: 0 <= i < |items| && items[i].P2pkh?) && (exists i :: 0 <= i < |items| && items[i].P2sh?))
    && (exists i :: 0 <= i < |items| && items[i].Typecode() > 1)
  }

  function AddressOf(items: seq<Receiver>): UnifiedAddress {
    UnifiedAddress(set r | r in items)
  }

  // ---- Receivers

  function EncodeReceiver(r: Receiver): (b: seq<Byte>)
    ensures b != []
  {
    EncodeSize(r.Typecode()) + EncodeSize(|r.data|) + r.data
  }

  /** How each known receiver begins: its typecode in ZIP 316, section "Encoding of Unified Addresses", and its
      length. */
  lemma KnownReceiverBytes(data: seq<Byte>)
    ensures |data| == 20 ==> EncodeReceiver(P2pkh(data)) == [0, 20] + data
    ensures |data| == 20 ==> EncodeReceiver(P2sh(data)) == [1, 20] + data
    ensures |data| == 43 ==> EncodeReceiver(Sapling(data)) == [2, 43] + data
    ensures |data| == 43 ==> EncodeReceiver(Orchard(data)) == [3, 43] + data
  {
  }

  function DecodeReceiver(typecode: U32, data: seq<Byte>): Result<Receiver, ParseError> {
    match typecode
    case 0 => if |data| == 20 then Ok(P2pkh(data)) else Err(WrongReceiverLength)
    case 1 => if |data| == 20 then Ok(P2sh(data)) else Err(WrongReceiverLength)
    case 2 => if |data| == 43 then Ok(Sapling(data)) else Err(WrongReceiverLength)
    case 3 => if |data| == 43 then Ok(Orchard(data)) else Err(WrongReceiverLength)
    case _ => Ok(Unknown(typecode, data))
  }

  function ReadReceiver(b: seq<Byte>): Result<Parsed<Receiver>, ParseError> {
    match ReadSize(b)
    case Err(e) => Err(e)
    case Ok(typecode) =>
      match ReadSize(typecode.rest)
      case Err(e) => Err(e)
      case Ok(length) =>
        if |length.rest| < length.value then Err(UnexpectedEnd)
        else
          ReadSizeIsEncoded(b);
          match DecodeReceiver(typecode.value, length.rest[..length.value])
          case Err(e) => Err(e)
          case Ok(receiver) => Ok(Parsed(receiver, length.rest[length.value..]))
  }

  function Same(r: Receiver): Receiver {
    r
  }

  lemma ReceiverRoundTrip(r: Receiver)
    requires r.WellFormed()
    ensures Undoes(ReadReceiver, EncodeReceiver, Same, r)
  {
    hide EncodeSize, ReadSize;
    forall rest ensures ReadReceiver(EncodeReceiver(r) + rest) == Ok(Parsed(r, rest)) {
      var body := EncodeSize(|r.data|) + (r.data + rest);
      assert EncodeReceiver(r) + rest == EncodeSize(r.Typecode()) + body;
      ReadEncodedSize(r.Typecode(), body);
      ReadEncodedSize(|r.data|, r.data + rest);
      assert (r.data + rest)[..|r.data|] == r.data && (r.data + rest)[|r.data|..] == rest;
    }
  }

  predicate IsWellFormed(r: Receiver) {
    r.WellFormed()
  }

  lemma ReceiverIsEncoded(b: seq<Byte>)
    requires ReadReceiver(b).Ok?
    ensures Consumed(ReadReceiver, EncodeReceiver, Same, IsWellFormed, b)
  {
    hide EncodeSize, ReadSize;
    ReadSizeIsEncoded(b);
    var typecode := ReadSize(b).value;
    ReadSizeIsEncoded(typecode.rest);
    var length := ReadSize(typecode.rest).value;
    var r := ReadReceiver(b).value;
    assert r.value.WellFormed();
    assert b == EncodeReceiver(r.value) + r.rest;
    assert IsWellFormed(r.value) && Same(r.value) == r.value;
  }

  // ---- Addresses

  function EncodeAddress(items: seq<Receiver>): (b: seq<Byte>)
    ensures b != []
  {
    EncodeVector(items, EncodeReceiver)
  }

  function TryFromItems(valid: Receiver -> bool, items: seq<Receiver>): Result<UnifiedAddress, ParseError> {
    if Canonical(valid, items) then Ok(AddressOf(items)) else Err(InvalidAddress)
  }

  function ReadAddress(valid: Receiver -> bool, b: seq<Byte>): Result<Parsed<UnifiedAddress>, ParseError> {
    match ReadVector(b, ReadReceiver)
    case Err(e) => Err(e)
    case Ok(items) =>
      match TryFromItems(valid, items.value)
      case Err(e) => Err(e)
      case Ok(address) => Ok(Parsed(address, items.rest))
  }

  function AddressReader(valid: Receiver -> bool): seq<Byte> -> Result<Parsed<UnifiedAddress>, ParseError> {
    b => ReadAddress(valid, b)
  }

  predicate Readable(valid: Receiver -> bool, items: seq<Receiver>) {
    Canonical(valid, items) && |items| <= MAX_COMPACT_SIZE
  }

  function ReadableBy(valid: Receiver -> bool): seq<Receiver> -> bool {
    items => Readable(valid, items)
  }

  lemma SameAll(items: seq<Receiver>)
    ensures Map(Same, items) == items
  {
  }

  /** Whatever order its receivers are written in, an address reads back as itself. */
  lemma AddressRoundTrip(valid: Receiver -> bool, items: seq<Receiver>)
    requires Readable(valid, items)
    ensures Undoes(AddressReader(valid), EncodeAddress, AddressOf, items)
  {
    hide EncodeReceiver, ReadReceiver, EncodeVector, ReadVector;
    forall i | 0 <= i < |items| ensures Undoes(ReadReceiver, EncodeReceiver, Same, items[i]) {
      ReceiverRoundTrip(items[i]);
    }
    SameAll(items);
    forall rest ensures AddressReader(valid)(EncodeAddress(items) + rest) == Ok(Parsed(AddressOf(items), rest)) {
      ReadEncodedVector(items, EncodeReceiver, ReadReceiver, Same, rest);
    }
  }

  lemma AddressIsEncoded(valid: Receiver -> bool, b: seq<Byte>)
    requires AddressReader(valid)(b).Ok?
    ensures Consumed(AddressReader(valid), EncodeAddress, AddressOf, ReadableBy(valid), b)
  {
    hide EncodeReceiver, ReadReceiver, EncodeVector, ReadVector;
    forall c | ReadReceiver(c).Ok? ensures Consumed(ReadReceiver, EncodeReceiver, Same, IsWellFormed, c) {
      ReceiverIsEncoded(c);
    }
    var items := ReadVectorIsEncoded(b, EncodeReceiver, ReadReceiver, Same, IsWellFormed);
    SameAll(items);
    assert ReadableBy(valid)(items) && b == EncodeAddress(items) + ReadAddress(valid, b).value.rest;
  }

  // ---- Memos

  datatype ParsedMemo =
    | Version0(uas: seq<UnifiedAddress>)
    | Version1(uas: seq<UnifiedAddress>, rejectionAddressIndexes: seq<nat>)

  function EncodeIndex(index: U32): (b: seq<Byte>)
    ensures b != []
  {
    EncodeSize(index)
  }

  function IndexOf(index: U32): nat {
    index
  }

  function EncodeVersion0(uas: seq<seq<Receiver>>): seq<Byte> {
    EncodeSize(0) + EncodeVector(uas, EncodeAddress)
  }

  function EncodeVersion1(uas: seq<seq<Receiver>>, indexes: seq<U32>): seq<Byte> {
    EncodeSize(1) + EncodeVector(uas, EncodeAddress) + EncodeVector(indexes, EncodeIndex)
  }

  function ParseZingoMemo(valid: Receiver -> bool, memo: seq<Byte>): Result<ParsedMemo, ParseError> {
    match ReadSize(memo)
    case Err(e) => Err(e)
    case Ok(version) =>
      if version.value > 1 then Err(FutureVersion)
      else
        match ReadVector(version.rest, AddressReader(valid))
        case Err(e) => Err(e)
        case Ok(uas) =>
          if version.value == 0 then Ok(Version0(uas.value))
          else
            match ReadVector(uas.rest, ReadSize)
            case Err(e) => Err(e)
            case Ok(indexes) => Ok(Version1(uas.value, indexes.value))
  }

  /** A memo begins with its version and the number of addresses; version 1 is version 0's addresses followed by the
      number of indexes and the indexes. */
  lemma MemoBytes(uas: seq<seq<Receiver>>, indexes: seq<U32>)
    requires |uas| < 253 && |indexes| < 253
    ensures EncodeVersion0(uas) == [0, |uas|] + EncodeAll(uas, EncodeAddress)
    ensures EncodeVersion1(uas, indexes)
              == [1, |uas|] + EncodeAll(uas, EncodeAddress) + [|indexes|] + EncodeAll(indexes, EncodeIndex)
  {
    hide EncodeSize, EncodeAll, EncodeAddress;
    EncodedSizeBytes(0);
    EncodedSizeBytes(1);
    EncodedSizeBytes(|uas|);
    EncodedSizeBytes(|indexes|);
    var addresses, numbers := EncodeAll(uas, EncodeAddress), EncodeAll(indexes, EncodeIndex);
    HeadedBy(0, |uas|, addresses);
    HeadedBy(1, |uas|, addresses);
    Regroup([1, |uas|] + addresses, [|indexes|], numbers);
  }

  lemma HeadedBy(version: Byte, count: Byte, rest: seq<Byte>)
    ensures [version] + ([count] + rest) == [version, count] + rest
  {
    Regroup([version], [count], rest);
  }

  /** No version but 0 and 1 is read, whatever follows it. */
  lemma FutureVersionIsRefused(valid: Receiver -> bool, version: nat, rest: seq<Byte>)
    requires 1 < version <= MAX_COMPACT_SIZE
    ensures ParseZingoMemo(valid, EncodeSize(version) + rest) == Err(FutureVersion)
  {
    hide EncodeSize, ReadSize;
    ReadEncodedSize(version, rest);
  }

  predicate InRange(index: U32) {
    index <= MAX_COMPACT_SIZE
  }

  predicate AllReadable(valid: Receiver -> bool, uas: seq<seq<Receiver>>) {
    |uas| <= MAX_COMPACT_SIZE && forall i :: 0 <= i < |uas| ==> Readable(valid, uas[i])
  }

  lemma ReadAddresses(valid: Receiver -> bool, uas: seq<seq<Receiver>>, rest: seq<Byte>)
    requires AllReadable(valid, uas)
    ensures ReadVector(EncodeVector(uas, EncodeAddress) + rest, AddressReader(valid))
              == Ok(Parsed(Map(AddressOf, uas), rest))
  {
    hide EncodeAddress, AddressReader, EncodeVector, ReadVector;
    forall i | 0 <= i < |uas| ensures Undoes(AddressReader(valid), EncodeAddress, AddressOf, uas[i]) {
      AddressRoundTrip(valid, uas[i]);
    }
    ReadEncodedVector(uas, EncodeAddress, AddressReader(valid), AddressOf, rest);
  }

  /** A list of indexes reads back as itself if all are in range, and otherwise not at all. */
  lemma {:induction false} ReadIndexCount(indexes: seq<U32>, rest: seq<Byte>)
    ensures ReadCount(EncodeAll(indexes, EncodeIndex) + rest, |indexes|, ReadSize) ==
            if forall i :: 0 <= i < |indexes| ==> InRange(indexes[i]) then Ok(Parsed(Map(IndexOf, indexes), rest))
            else Err(SizeTooLarge)
  {
    hide EncodeSize, ReadSize;
    if indexes == [] {
      assert EncodeAll(indexes, EncodeIndex) + rest == rest && Map(IndexOf, indexes) == [];
    } else {
      var others := EncodeAll(indexes[1..], EncodeIndex) + rest;
      assert EncodeAll(indexes, EncodeIndex) + rest == EncodeIndex(indexes[0]) + others;
      ReadEncodedSize(indexes[0], others);
      ReadIndexCount(indexes[1..], rest);
      assert Map(IndexOf, indexes) == [indexes[0]] + Map(IndexOf, indexes[1..]);
      if forall i :: 0 <= i < |indexes[1..]| ==> InRange(indexes[1..][i]) {
        assert forall i :: 0 < i < |indexes| ==> indexes[i] == indexes[1..][i - 1];
      } else {
        var i :| 0 <= i < |indexes[1..]| && !InRange(indexes[1..][i]);
        assert !InRange(indexes[i + 1]);
      }
    }
  }

  lemma ReadIndexes(indexes: seq<U32>, rest: seq<Byte>)
    requires |indexes| <= MAX_COMPACT_SIZE
    ensures ReadVector(EncodeVector(indexes, EncodeIndex) + rest, ReadSize) ==
            if forall i :: 0 <= i < |indexes| ==> InRange(indexes[i]) then Ok(Parsed(Map(IndexOf, indexes), rest))
            else Err(SizeTooLarge)
  {
    hide EncodeSize, ReadSize, EncodeAll, ReadCount;
    var body := EncodeAll(indexes, EncodeIndex) + rest;
    assert EncodeVector(indexes, EncodeIndex) + rest == EncodeSize(|indexes|) + body;
    ReadEncodedSize(|indexes|, body);
    ReadIndexCount(indexes, rest);
  }

  lemma Version1RoundTrip(valid: Receiver -> bool, uas: seq<seq<Receiver>>, indexes: seq<U32>, tail: seq<Byte>)
    requires AllReadable(valid, uas) && |indexes| <= MAX_COMPACT_SIZE
    ensures ParseZingoMemo(valid, EncodeVersion1(uas, indexes) + tail) ==
            if forall i :: 0 <= i < |indexes| ==> InRange(indexes[i])
            then Ok(Version1(Map(AddressOf, uas), Map(IndexOf, indexes)))
            else Err(SizeTooLarge)
  {
    hide EncodeSize, ReadSize, EncodeVector, ReadVector, AddressReader;
    var addresses, numbers := EncodeVector(uas, EncodeAddress), EncodeVector(indexes, EncodeIndex);
    assert EncodeVersion1(uas, indexes) + tail == EncodeSize(1) + (addresses + (numbers + tail));
    ReadEncodedSize(1, addresses + (numbers + tail));
    ReadAddresses(valid, uas, numbers + tail);
    ReadIndexes(indexes, tail);
  }

  lemma Version0RoundTrip(valid: Receiver -> bool, uas: seq<seq<Receiver>>, tail: seq<Byte>)
    requires AllReadable(valid, uas)
    ensures ParseZingoMemo(valid, EncodeVersion0(uas) + tail) == Ok(Version0(Map(AddressOf, uas)))
  {
    hide EncodeSize, ReadSize, EncodeVector, ReadVector, AddressReader;
    var addresses := EncodeVector(uas, EncodeAddress);
    assert EncodeVersion0(uas) + tail == EncodeSize(0) + (addresses + tail);
    ReadEncodedSize(0, addresses + tail);
    ReadAddresses(valid, uas, tail);
  }
}
