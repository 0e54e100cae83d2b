/** Writing and reading wallet-internal memos, and what the two do to each other. */
module MemoIO {
  import opened Wrappers
  import opened CompactSizes
  import opened Memo

  // ---- Creating memos

  datatype CreateError = TooLong

  function Padded(bytes: seq<Byte>): (r: seq<Byte>)
    requires |bytes| <= MEMO_LENGTH
    ensures |r| == MEMO_LENGTH && bytes <= r && forall i :: |bytes| <= i < |r| ==> r[i] == 0
  {
    bytes + seq(MEMO_LENGTH - |bytes|, _ => 0)
  }

  method WriteUnifiedAddress(items: seq<Receiver>, writer: seq<Byte>) returns (r: seq<Byte>)
    ensures r == writer + EncodeAddress(items)
  {
    hide EncodeSize, EncodeReceiver;
    r := writer + EncodeSize(|items|);
    ghost var start := r;
    for i := 0 to |items|
      invariant r == start + EncodeAll(items[..i], EncodeReceiver)
    {
      EncodeAllAppend(items[..i], items[i], EncodeReceiver);
      assert items[..i + 1] == items[..i] + [items[i]];
      r := r + EncodeReceiver(items[i]);
    }
    assert items[..|items|] == items;
  }

  method WriteAddresses(uas: seq<seq<Receiver>>, writer: seq<Byte>) returns (r: seq<Byte>)
    ensures r == writer + EncodeVector(uas, EncodeAddress)
  {
    hide EncodeSize, EncodeAddress;
    r := writer + EncodeSize(|uas|);
    ghost var start := r;
    for i := 0 to |uas|
      invariant r == start + EncodeAll(uas[..i], EncodeAddress)
    {
      EncodeAllAppend(uas[..i], uas[i], EncodeAddress);
      assert uas[..i + 1] == uas[..i] + [uas[i]];
      r := WriteUnifiedAddress(uas[i], r);
    }
    assert uas[..|uas|] == uas;
  }

  method WriteIndexes(indexes: seq<U32>, writer: seq<Byte>) returns (r: seq<Byte>)
    ensures r == writer + EncodeVector(indexes, EncodeIndex)
  {
    hide EncodeSize, EncodeIndex;
    r := writer + EncodeSize(|indexes|);
    ghost var start := r;
    for i := 0 to |indexes|
      invariant r == start + EncodeAll(indexes[..i], EncodeIndex)
    {
      EncodeAllAppend(indexes[..i], indexes[i], EncodeIndex);
      assert indexes[..i + 1] == indexes[..i] + [indexes[i]];
      r := r + EncodeIndex(indexes[i]);
    }
    assert indexes[..|indexes|] == indexes;
  }

  /** Fills a zeroed memo from the front, if the bytes fit. */
  method FillMemo(bytes: seq<Byte>) returns (r: Result<seq<Byte>, CreateError>)
    ensures r.Err? <==> |bytes| > MEMO_LENGTH
    ensures r.Ok? ==> r.value == Padded(bytes)
  {
    var memo := new Byte[MEMO_LENGTH](_ => 0);
    if |bytes| > MEMO_LENGTH {
      return Err(TooLong);
    }
    for i := 0 to |bytes|
      invariant memo[..i] == bytes[..i] && forall k :: i <= k < MEMO_LENGTH ==> memo[k] == 0
    {
      memo[i] := bytes[i];
      assert memo[..i + 1] == memo[..i] + [memo[i]] && bytes[..i + 1] == bytes[..i] + [bytes[i]];
    }
    assert bytes[..|bytes|] == bytes && memo[..] == memo[..|bytes|] + memo[|bytes|..];
    return Ok(memo[..]);
  }

  method CreateWalletInternalMemoVersion0(uas: seq<seq<Receiver>>) returns (r: Result<seq<Byte>, CreateError>)
    ensures r.Err? <==> |EncodeVersion0(uas)| > MEMO_LENGTH
    ensures r.Ok? ==> r.value == Padded(EncodeVersion0(uas))
  {
    var bytes := WriteAddresses(uas, EncodeSize(0));
    r := FillMemo(bytes);
  }

  method CreateWalletInternalMemoVersion1(uas: seq<seq<Receiver>>, indexes: seq<U32>)
    returns (r: Result<seq<Byte>, CreateError>)
    ensures r.Err? <==> |EncodeVersion1(uas, indexes)| > MEMO_LENGTH
    ensures r.Ok? ==> r.value == Padded(EncodeVersion1(uas, indexes))
  {
    var addresses := WriteAddresses(uas, EncodeSize(1));
    var bytes := WriteIndexes(indexes, addresses);
    r := FillMemo(bytes);
  }

  // ---- Parsing memos

  /** A byte slice that shrinks as it is read. */
  class Reader {
    var rest: seq<Byte>

    constructor (bytes: seq<Byte>)
      ensures rest == bytes
    {
      rest := bytes;
    }

    method ReadByte() returns (r: Result<Byte, ParseError>)
      modifies this
      ensures r.Ok? <==> old(rest) != []
      ensures r.Ok? ==> r.value == old(rest)[0] && rest == old(rest)[1..]
      ensures r.Err? ==> r.error == UnexpectedEnd
    {
      if rest == [] {
        return Err(UnexpectedEnd);
      }
      r := Ok(rest[0]);
      rest := rest[1..];
    }

    method ReadExact(n: nat) returns (r: Result<seq<Byte>, ParseError>)
      modifies this
      ensures r.Ok? <==> |old(rest)| >= n
      ensures r.Ok? ==> r.value == old(rest)[..n] && rest == old(rest)[n..]
      ensures r.Err? ==> r.error == UnexpectedEnd
    {
      if |rest| < n {
        return Err(UnexpectedEnd);
      }
      r := Ok(rest[..n]);
      rest := rest[n..];
    }

    method ReadCompactSize() returns (r: Result<nat, ParseError>)
      modifies this
      ensures Agrees(ReadSize(old(rest)), r, rest)
    {
      var flag := ReadByte();
      if flag.Err? {
        return Err(flag.error);
      }
      if flag.value < 253 {
        return Ok(flag.value);
      }
      ghost var before := old(rest);
      var bytes := ReadExact(Width(flag.value));
      if bytes.Err? {
        return Err(bytes.error);
      }
      assert bytes.value == before[1..1 + Width(flag.value)] && rest == before[1 + Width(flag.value)..];
      var n := FromLittleEndian(bytes.value);
      if n < Least(flag.value) {
        return Err(NonCanonicalSize);
      }
      if n > MAX_COMPACT_SIZE {
        return Err(SizeTooLarge);
      }
      return Ok(n);
    }

    method ReadOneReceiver() returns (r: Result<Receiver, ParseError>)
      modifies this
      ensures Agrees(ReadReceiver(old(rest)), r, rest)
    {
      hide ReadSize;
      var typecode := ReadCompactSize();
      if typecode.Err? {
        return Err(typecode.error);
      }
      ReadSizeIsEncoded(old(rest));
      var length := ReadCompactSize();
      if length.Err? {
        return Err(length.error);
      }
      var data := ReadExact(length.value);
      if data.Err? {
        return Err(data.error);
      }
      r := DecodeReceiver(typecode.value, data.value);
    }

    method ReadUnifiedAddress(valid: Receiver -> bool) returns (r: Result<UnifiedAddress, ParseError>)
      modifies this
      ensures Agrees(ReadAddress(valid, old(rest)), r, rest)
    {
      hide ReadSize, ReadReceiver, ReadCount, Prepended;
      var count := ReadCompactSize();
      if count.Err? {
        return Err(count.error);
      }
      var receivers: seq<Receiver> := [];
      ghost var from := rest;
      PrependedNothing(ReadCount(from, count.value, ReadReceiver));
      for i := 0 to count.value
        invariant ReadCount(from, count.value, ReadReceiver)
               == Prepended(receivers, ReadCount(rest, count.value - i, ReadReceiver))
      {
        ReadCountStep(rest, count.value - i, ReadReceiver);
        var receiver := ReadOneReceiver();
        if receiver.Err? {
          PrependedError(receivers, ReadCount(from, count.value, ReadReceiver), receiver.error);
          return Err(receiver.error);
        }
        PrependedStep(receivers, receiver.value, ReadCount(rest, count.value - i - 1, ReadReceiver));
        receivers := receivers + [receiver.value];
      }
      ReadCountNone(rest, ReadReceiver, receivers);
      r := TryFromItems(valid, receivers);
    }

    method ReadUnifiedAddresses(valid: Receiver -> bool) returns (r: Result<seq<UnifiedAddress>, ParseError>)
      modifies this
      ensures Agrees(ReadVector(old(rest), AddressReader(valid)), r, rest)
    {
      hide ReadSize, ReadAddress, ReadCount, Prepended;
      var count := ReadCompactSize();
      if count.Err? {
        return Err(count.error);
      }
      var uas: seq<UnifiedAddress> := [];
      ghost var from := rest;
      PrependedNothing(ReadCount(from, count.value, AddressReader(valid)));
      for i := 0 to count.value
        invariant ReadCount(from, count.value, AddressReader(valid))
               == Prepended(uas, ReadCount(rest, count.value - i, AddressReader(valid)))
      {
        ReadCountStep(rest, count.value - i, AddressReader(valid));
        var ua := ReadUnifiedAddress(valid);
        if ua.Err? {
          PrependedError(uas, ReadCount(from, count.value, AddressReader(valid)), ua.error);
          return Err(ua.error);
        }
        PrependedStep(uas, ua.value, ReadCount(rest, count.value - i - 1, AddressReader(valid)));
        uas := uas + [ua.value];
      }
      ReadCountNone(rest, AddressReader(valid), uas);
      r := Ok(uas);
    }

    method ReadIndexes() returns (r: Result<seq<nat>, ParseError>)
      modifies this
      ensures Agrees(ReadVector(old(rest), ReadSize), r, rest)
    {
      hide ReadSize, ReadCount, Prepended;
      var count := ReadCompactSize();
      if count.Err? {
        return Err(count.error);
      }
      var indexes: seq<nat> := [];
      ghost var from := rest;
      PrependedNothing(ReadCount(from, count.value, ReadSize));
      for i := 0 to count.value
        invariant ReadCount(from, count.value, ReadSize)
                    == Prepended(indexes, ReadCount(rest, count.value - i, ReadSize))
      {
        ReadCountStep(rest, count.value - i, ReadSize);
        var index := ReadCompactSize();
        if index.Err? {
          PrependedError(indexes, ReadCount(from, count.value, ReadSize), index.error);
          return Err(index.error);
        }
        PrependedStep(indexes, index.value, ReadCount(rest, count.value - i - 1, ReadSize));
        indexes := indexes + [index.value];
      }
      ReadCountNone(rest, ReadSize, indexes);
      r := Ok(indexes);
    }
  }

  lemma PrependedError<T>(first: seq<T>, whole: Result<Parsed<seq<T>>, ParseError>, e: ParseError)
    requires whole == Prepended(first, Err(e))
    ensures whole == Err(e)
  {
  }

  method ParseMemo(valid: Receiver -> bool, memo: seq<Byte>) returns (r: Result<ParsedMemo, ParseError>)
    requires |memo| == MEMO_LENGTH
    ensures r == ParseZingoMemo(valid, memo)
  {
    hide ReadSize, ReadVector;
    var reader := new Reader(memo);
    var version := reader.ReadCompactSize();
    match version
    case Err(e) => return Err(e);
    case Ok(0) =>
      var uas := reader.ReadUnifiedAddresses(valid);
      return if uas.Ok? then Ok(Version0(uas.value)) else Err(uas.error);
    case Ok(1) =>
      var uas := reader.ReadUnifiedAddresses(valid);
      if uas.Err? {
        return Err(uas.error);
      }
      var indexes := reader.ReadIndexes();
      return if indexes.Ok? then Ok(Version1(uas.value, indexes.value)) else Err(indexes.error);
    case Ok(_) => return Err(FutureVersion);
  }

  /** A method's outcome matches the function's: the same value or error, and on success the same rest. */
  predicate Agrees<T(==)>(expected: Result<Parsed<T>, ParseError>, r: Result<T, ParseError>, rest: seq<Byte>) {
    match expected
    case Ok(parsed) => r == Ok(parsed.value) && rest == parsed.rest
    case Err(e) => r == Err(e)
  }

  // ---- What the two do to each other

  predicate AllCanonical(valid: Receiver -> bool, uas: seq<seq<Receiver>>) {
    forall i :: 0 <= i < |uas| ==> Canonical(valid, uas[i])
  }

  /** What fits in a memo is short enough to be read back. */
  lemma FittingIsReadable(valid: Receiver -> bool, uas: seq<seq<Receiver>>)
    requires AllCanonical(valid, uas) && |EncodeAll(uas, EncodeAddress)| <= MEMO_LENGTH
    ensures AllReadable(valid, uas)
  {
    hide Canonical, EncodeAddress;
    NoMoreItemsThanBytes(uas, EncodeAddress);
    forall i | 0 <= i < |uas| ensures |uas[i]| <= MEMO_LENGTH {
      NoItemLongerThanAll(uas, EncodeAddress, i);
      AddressLength(uas[i]);
    }
  }

  lemma AddressLength(items: seq<Receiver>)
    ensures |EncodeAddress(items)| >= |items|
  {
    NoMoreItemsThanBytes(items, EncodeReceiver);
  }

  /** Parsing inverts creating exactly when every index is in the range of a CompactSize; above it the memo is created
      all the same and cannot be read. */
  lemma ParseInvertsCreate(valid: Receiver -> bool, uas: seq<seq<Receiver>>, indexes: seq<U32>)
    requires AllCanonical(valid, uas) && |EncodeVersion1(uas, indexes)| <= MEMO_LENGTH
    ensures ParseZingoMemo(valid, Padded(EncodeVersion1(uas, indexes))) ==
            if forall i :: 0 <= i < |indexes| ==> InRange(indexes[i])
            then Ok(Version1(Map(AddressOf, uas), Map(IndexOf, indexes)))
            else Err(SizeTooLarge)
  {
    hide EncodeSize, AllCanonical, AllReadable, ParseZingoMemo;
    var bytes := EncodeVersion1(uas, indexes);
    FittingIsReadable(valid, uas);
    NoMoreItemsThanBytes(indexes, EncodeIndex);
    Version1RoundTrip(valid, uas, indexes, Padded(bytes)[|bytes|..]);
  }

  lemma ParseInvertsCreateVersion0(valid: Receiver -> bool, uas: seq<seq<Receiver>>)
    requires AllCanonical(valid, uas) && |EncodeVersion0(uas)| <= MEMO_LENGTH
    ensures ParseZingoMemo(valid, Padded(EncodeVersion0(uas))) == Ok(Version0(Map(AddressOf, uas)))
  {
    hide EncodeSize, AllCanonical, AllReadable, ParseZingoMemo;
    var bytes := EncodeVersion0(uas);
    FittingIsReadable(valid, uas);
    Version0RoundTrip(valid, uas, Padded(bytes)[|bytes|..]);
  }

  /** Only what the writer can write is ever read: a memo that parses starts with the encoding of what it parses to. */
  lemma ParsedIsEncoded(valid: Receiver -> bool, memo: seq<Byte>)
    returns (uas: seq<seq<Receiver>>, indexes: seq<U32>, tail: seq<Byte>)
    requires ParseZingoMemo(valid, memo).Ok?
    ensures AllReadable(valid, uas) && |indexes| <= MAX_COMPACT_SIZE
    ensures forall i :: 0 <= i < |indexes| ==> InRange(indexes[i])
    ensures match ParseZingoMemo(valid, memo).value
            case Version0(addresses) => addresses == Map(AddressOf, uas) && memo == EncodeVersion0(uas) + tail
            case Version1(addresses, numbers) =>
              && addresses == Map(AddressOf, uas) && numbers == Map(IndexOf, indexes)
              && memo == EncodeVersion1(uas, indexes) + tail
  {
    hide EncodeSize, ReadSize, EncodeVector, ReadVector, AddressReader, Readable;
    ReadSizeIsEncoded(memo);
    var version := ReadSize(memo).value;
    forall b | AddressReader(valid)(b).Ok?
      ensures Consumed(AddressReader(valid), EncodeAddress, AddressOf, ReadableBy(valid), b)
    {
      AddressIsEncoded(valid, b);
    }
    uas := ReadVectorIsEncoded(version.rest, EncodeAddress, AddressReader(valid), AddressOf, ReadableBy(valid));
    forall i | 0 <= i < |uas| ensures Readable(valid, uas[i]) {
      assert ReadableBy(valid)(uas[i]);
    }
    var afterUas := ReadVector(version.rest, AddressReader(valid)).value.rest;
    indexes, tail := [], afterUas;
    if version.value == 0 {
      assert memo == EncodeSize(0) + (EncodeVector(uas, EncodeAddress) + tail);
    } else {
      indexes, tail := IndexesAreEncoded(afterUas);
      assert memo == EncodeSize(1) + (EncodeVector(uas, EncodeAddress) + (EncodeVector(indexes, EncodeIndex) + tail));
    }
  }

  lemma IndexesAreEncoded(b: seq<Byte>) returns (indexes: seq<U32>, tail: seq<Byte>)
    requires ReadVector(b, ReadSize).Ok?
    ensures |indexes| <= MAX_COMPACT_SIZE && forall i :: 0 <= i < |indexes| ==> InRange(indexes[i])
    ensures ReadVector(b, ReadSize).value == Parsed(Map(IndexOf, indexes), tail)
    ensures b == EncodeVector(indexes, EncodeIndex) + tail
  {
    hide EncodeSize, ReadSize, EncodeVector, ReadVector;
    forall c | ReadSize(c).Ok? ensures Consumed(ReadSize, EncodeIndex, IndexOf, InRange, c) {
      ReadSizeIsEncoded(c);
      var n: U32 := ReadSize(c).value.value;
      assert InRange(n) && IndexOf(n) == n && c == EncodeIndex(n) + ReadSize(c).value.rest;
    }
    indexes := ReadVectorIsEncoded(b, EncodeIndex, ReadSize, IndexOf, InRange);
    tail := ReadVector(b, ReadSize).value.rest;
  }

  /** What follows the encoding, zero padding or anything else, never changes the parse. */
  lemma PaddingIsIgnored(valid: Receiver -> bool, memo: seq<Byte>) returns (prefix: seq<Byte>)
    requires ParseZingoMemo(valid, memo).Ok?
    ensures prefix <= memo
    ensures forall tail :: ParseZingoMemo(valid, prefix + tail) == ParseZingoMemo(valid, memo)
  {
    hide ParseZingoMemo, AllReadable, EncodeVersion0, EncodeVersion1;
    var uas, indexes, rest := ParsedIsEncoded(valid, memo);
    match ParseZingoMemo(valid, memo).value
    case Version0(_) =>
      prefix := EncodeVersion0(uas);
      forall tail ensures ParseZingoMemo(valid, prefix + tail) == ParseZingoMemo(valid, memo) {
        Version0RoundTrip(valid, uas, tail);
      }
    case Version1(_, _) =>
      prefix := EncodeVersion1(uas, indexes);
      forall tail ensures ParseZingoMemo(valid, prefix + tail) == ParseZingoMemo(valid, memo) {
        Version1RoundTrip(valid, uas, indexes, tail);
      }
  }

  // ---- How much fits

  function KnownLength(r: Receiver): nat
    requires r.WellFormed() && !r.Unknown?
  {
    if r.Typecode() <= 1 then 22 else 45
  }

  lemma ReceiverLength(r: Receiver)
    requires r.WellFormed() && !r.Unknown?
    ensures |EncodeReceiver(r)| == KnownLength(r)
  {
  }

  lemma KnownLengths(a: Receiver, b: Receiver, c: Receiver)
    requires a.WellFormed() && b.WellFormed() && c.WellFormed() && !a.Unknown? && !b.Unknown? && !c.Unknown?
    requires a.Typecode() != b.Typecode() && a.Typecode() != c.Typecode() && b.Typecode() != c.Typecode()
    requires !(a.P2pkh? && b.P2sh?) && !(a.P2pkh? && c.P2sh?) && !(b.P2pkh? && c.P2sh?)
    requires !(b.P2pkh? && a.P2sh?) && !(c.P2pkh? && a.P2sh?) && !(c.P2pkh? && b.P2sh?)
    ensures KnownLength(a) + KnownLength(b) + KnownLength(c) == 112
  {
  }

  /** An address with all three known receivers takes 113 bytes: each receiver also has its typecode and its length. */
  lemma ThreeReceiversTake113Bytes(valid: Receiver -> bool, items: seq<Receiver>)
    requires Canonical(valid, items) && |items| == 3 && forall i :: 0 <= i < 3 ==> !items[i].Unknown?
    ensures |EncodeAddress(items)| == 113
  {
    var a, b, c := items[0], items[1], items[2];
    ReceiverLength(a);
    ReceiverLength(b);
    ReceiverLength(c);
    hide EncodeReceiver, KnownLength;
    assert items == [a] + ([b] + ([c] + []));
    EncodeAllCons(c, [], EncodeReceiver, []);
    EncodeAllCons(b, [c] + [], EncodeReceiver, []);
    EncodeAllCons(a, [b] + ([c] + []), EncodeReceiver, []);
    assert |EncodeSize(3)| == 1;
    KnownLengths(a, b, c);
  }

  lemma {:induction false} EqualLengths(uas: seq<seq<Receiver>>, length: nat)
    requires forall i :: 0 <= i < |uas| ==> |EncodeAddress(uas[i])| == length
    ensures |EncodeAll(uas, EncodeAddress)| == |uas| * length
  {
    hide EncodeAddress;
    if uas != [] {
      EqualLengths(uas[1..], length);
      assert |uas| * length == length + |uas[1..]| * length;
    }
  }

  /** At most four such addresses fit, and four do, with indexes to spare. */
  lemma FourFullAddressesFit(valid: Receiver -> bool, uas: seq<seq<Receiver>>)
    requires forall i :: 0 <= i < |uas| ==>
               Canonical(valid, uas[i]) && |uas[i]| == 3 && forall j :: 0 <= j < 3 ==> !uas[i][j].Unknown?
    ensures |EncodeVersion1(uas, [])| <= MEMO_LENGTH <==> |uas| <= 4
  {
    hide EncodeAddress;
    forall i | 0 <= i < |uas| ensures |EncodeAddress(uas[i])| == 113 {
      ThreeReceiversTake113Bytes(valid, uas[i]);
    }
    EqualLengths(uas, 113);
  }
}
