/** The variable-length integers and vectors of the memo format: CompactSize as in Bitcoin's serialisation, read back
    only from its shortest form and only up to a maximum. */
module CompactSizes {
  import opened Wrappers

  type Byte = b: nat | b < 256

  const MAX_COMPACT_SIZE: nat := 0x02000000

  const TWO_64: nat := 0x1_0000_0000_0000_0000

  datatype ParseError =
    | UnexpectedEnd | NonCanonicalSize | SizeTooLarge | WrongReceiverLength | InvalidAddress | FutureVersion

  /** A value read, and what is left of the input. */
  datatype Parsed<+T> = Parsed(value: T, rest: seq<Byte>)

  // ---- Little-endian integers

  function Pow256(k: nat): nat {
    if k == 0 then 1 else 256 * Pow256(k - 1)
  }

  function LittleEndian(n: nat, k: nat): (r: seq<Byte>)
    ensures |r| == k
  {
    if k == 0 then [] else [n % 256] + LittleEndian(n / 256, k - 1)
  }

  function FromLittleEndian(bytes: seq<Byte>): nat {
    if bytes == [] then 0 else bytes[0] + 256 * FromLittleEndian(bytes[1..])
  }

  lemma {:induction false} LittleEndianRoundTrip(n: nat, k: nat)
    requires n < Pow256(k)
    ensures FromLittleEndian(LittleEndian(n, k)) == n
  {
    if k > 0 {
      LittleEndianRoundTrip(n / 256, k - 1);
      assert LittleEndian(n, k)[1..] == LittleEndian(n / 256, k - 1);
    }
  }

  lemma {:induction false} LittleEndianOnto(bytes: seq<Byte>)
    ensures LittleEndian(FromLittleEndian(bytes), |bytes|) == bytes
    ensures FromLittleEndian(bytes) < Pow256(|bytes|)
  {
    if bytes != [] {
      LittleEndianOnto(bytes[1..]);
      var n := FromLittleEndian(bytes);
      assert n % 256 == bytes[0] && n / 256 == FromLittleEndian(bytes[1..]);
      assert bytes == [bytes[0]] + bytes[1..];
    }
  }

  lemma Powers()
    ensures Pow256(2) == 0x1_0000 && Pow256(4) == 0x1_0000_0000 && Pow256(8) == TWO_64
  {
    assert Pow256(2) == 256 * (256 * Pow256(0));
    assert Pow256(4) == 256 * (256 * Pow256(2));
    assert Pow256(6) == 256 * (256 * Pow256(4));
    assert Pow256(8) == 256 * (256 * Pow256(6));
  }

  lemma {:induction false} LittleEndianBytes(n: nat)
    ensures LittleEndian(n, 2) == [n % 256, n / 0x100 % 256]
    ensures LittleEndian(n, 4) == [n % 256, n / 0x100 % 256, n / 0x1_0000 % 256, n / 0x100_0000 % 256]
  {
    LittleEndianStep(n, 4);
    LittleEndianStep(n, 2);
    LittleEndianStep(n / 256, 3);
    LittleEndianStep(n / 256, 1);
    LittleEndianStep(n / 256 / 256, 2);
    LittleEndianStep(n / 256 / 256 / 256, 1);
  }

  lemma LittleEndianStep(n: nat, k: nat)
    requires k > 0
    ensures LittleEndian(n, k) == [n % 256] + LittleEndian(n / 256, k - 1)
  {
  }

  // ---- CompactSize

  /** How many bytes follow a flag byte, and the least value written with that flag. */
  function Width(flag: Byte): nat
    requires flag >= 253
  {
    if flag == 253 then 2 else if flag == 254 then 4 else 8
  }

  function Least(flag: Byte): nat
    requires flag >= 253
  {
    if flag == 253 then 253 else if flag == 254 then 0x1_0000 else 0x1_0000_0000
  }

  function FlagOf(n: nat): Byte {
    if n < 253 then n else if n <= 0xFFFF then 253 else if n <= 0xFFFF_FFFF then 254 else 255
  }

  function EncodeSize(n: nat): (r: seq<Byte>)
    ensures r != []
  {
    [FlagOf(n)] + if n < 253 then [] else LittleEndian(n, Width(FlagOf(n)))
  }

  function ReadSize(b: seq<Byte>): Result<Parsed<nat>, ParseError> {
    if b == [] then Err(UnexpectedEnd)
    else if b[0] < 253 then Ok(Parsed(b[0], b[1..]))
    else
      var width := Width(b[0]);
      if |b| < 1 + width then Err(UnexpectedEnd)
      else
        var n := FromLittleEndian(b[1..1 + width]);
        if n < Least(b[0]) then Err(NonCanonicalSize)
        else if n > MAX_COMPACT_SIZE then Err(SizeTooLarge)
        else Ok(Parsed(n, b[1 + width..]))
  }

  /** The bytes of a written size: itself below 253, else a flag and the size in the fewest of 2, 4 or 8 bytes, lowest
      first (8 bytes are never read back). */
  lemma EncodedSizeBytes(n: nat)
    ensures n < 253 ==> EncodeSize(n) == [n]
    ensures 253 <= n < 0x1_0000 ==> EncodeSize(n) == [253, n % 256, n / 0x100]
    ensures 0x1_0000 <= n < 0x1_0000_0000 ==>
              EncodeSize(n) == [254, n % 256, n / 0x100 % 256, n / 0x1_0000 % 256, n / 0x100_0000]
    ensures n >= 0x1_0000_0000 ==> EncodeSize(n)[0] == 255 && |EncodeSize(n)| == 9
  {
    hide LittleEndian;
    LittleEndianBytes(n);
  }

  /** A written size reads back as itself exactly when it is not above the maximum. */
  lemma ReadEncodedSize(n: nat, rest: seq<Byte>)
    requires n < TWO_64
    ensures ReadSize(EncodeSize(n) + rest) ==
            if n <= MAX_COMPACT_SIZE then Ok(Parsed(n, rest)) else Err(SizeTooLarge)
  {
    hide LittleEndian, FromLittleEndian, Pow256;
    var b := EncodeSize(n) + rest;
    if n < 253 {
      assert b[1..] == rest;
    } else {
      var width := Width(FlagOf(n));
      Powers();
      LittleEndianRoundTrip(n, width);
      assert b[1..1 + width] == LittleEndian(n, width) && b[1 + width..] == rest;
    }
  }

  /** Only written sizes read back: what was consumed is the encoding of what was read. */
  lemma ReadSizeIsEncoded(b: seq<Byte>)
    requires ReadSize(b).Ok?
    ensures ReadSize(b).value.value <= MAX_COMPACT_SIZE
    ensures b == EncodeSize(ReadSize(b).value.value) + ReadSize(b).value.rest
  {
    hide LittleEndian, FromLittleEndian, Pow256;
    if b[0] >= 253 {
      var width := Width(b[0]);
      Powers();
      LittleEndianOnto(b[1..1 + width]);
      assert b == ([b[0]] + b[1..1 + width]) + b[1 + width..];
    }
  }

  // ---- Vectors

  /** The encodings of the items, one after the other. */
  function EncodeAll<S>(items: seq<S>, encode: S -> seq<Byte>): seq<Byte> {
    if items == [] then [] else encode(items[0]) + EncodeAll(items[1..], encode)
  }

  /** Reads `count` items, stopping at the first failure. */
  function ReadCount<T>(b: seq<Byte>, count: nat, read: seq<Byte> -> Result<Parsed<T>, ParseError>)
    : Result<Parsed<seq<T>>, ParseError>
    decreases count
  {
    if count == 0 then Ok(Parsed([], b))
    else
      match read(b)
      case Err(e) => Err(e)
      case Ok(first) =>
        match ReadCount(first.rest, count - 1, read)
        case Err(e) => Err(e)
        case Ok(others) => Ok(Parsed([first.value] + others.value, others.rest))
  }

  function Prepended<T>(first: seq<T>, more: Result<Parsed<seq<T>>, ParseError>): Result<Parsed<seq<T>>, ParseError> {
    match more
    case Err(e) => Err(e)
    case Ok(parsed) => Ok(Parsed(first + parsed.value, parsed.rest))
  }

  lemma PrependedStep<T>(first: seq<T>, item: T, more: Result<Parsed<seq<T>>, ParseError>)
    ensures Prepended(first, Prepended([item], more)) == Prepended(first + [item], more)
  {
    if more.Ok? {
      assert first + ([item] + more.value.value) == first + [item] + more.value.value;
    }
  }

  lemma ReadCountStep<T>(b: seq<Byte>, count: nat, read: seq<Byte> -> Result<Parsed<T>, ParseError>)
    requires count > 0
    ensures ReadCount(b, count, read) ==
            match read(b)
            case Err(e) => Err(e)
            case Ok(first) => Prepended([first.value], ReadCount(first.rest, count - 1, read))
  {
  }

  lemma ReadCountNone<T>(b: seq<Byte>, read: seq<Byte> -> Result<Parsed<T>, ParseError>, first: seq<T>)
    ensures Prepended(first, ReadCount(b, 0, read)) == Ok(Parsed(first, b))
  {
    assert first + [] == first;
  }

  lemma PrependedNothing<T>(more: Result<Parsed<seq<T>>, ParseError>)
    ensures Prepended([], more) == more
  {
    if more.Ok? {
      assert [] + more.value.value == more.value.value;
    }
  }

  function EncodeVector<S>(items: seq<S>, encode: S -> seq<Byte>): seq<Byte> {
    EncodeSize(|items|) + EncodeAll(items, encode)
  }

  function ReadVector<T>(b: seq<Byte>, read: seq<Byte> -> Result<Parsed<T>, ParseError>)
    : Result<Parsed<seq<T>>, ParseError>
  {
    match ReadSize(b)
    case Err(e) => Err(e)
    case Ok(size) => ReadCount(size.rest, size.value, read)
  }

  function Map<S, T>(f: S -> T, items: seq<S>): (r: seq<T>)
    ensures |r| == |items| && forall i {:trigger r[i]} :: 0 <= i < |r| ==> r[i] == f(items[i])
  {
    seq(|items|, i requires 0 <= i < |items| => f(items[i]))
  }

  /** `read` undoes `encode` on an item, giving its view, whatever follows. */
  ghost predicate Undoes<S, T>(
      read: seq<Byte> -> Result<Parsed<T>, ParseError>, encode: S -> seq<Byte>, view: S -> T, item: S)
  {
    forall rest :: read(encode(item) + rest) == Ok(Parsed(view(item), rest))
  }

  lemma {:induction false} ReadEncodedAll<S, T>(
      items: seq<S>, encode: S -> seq<Byte>, read: seq<Byte> -> Result<Parsed<T>, ParseError>, view: S -> T,
      rest: seq<Byte>)
    requires forall i :: 0 <= i < |items| ==> Undoes(read, encode, view, items[i])
    ensures ReadCount(EncodeAll(items, encode) + rest, |items|, read) == Ok(Parsed(Map(view, items), rest))
  {
    if items == [] {
      assert EncodeAll(items, encode) + rest == rest && Map(view, items) == [];
    } else {
      var others := EncodeAll(items[1..], encode) + rest;
      assert EncodeAll(items, encode) + rest == encode(items[0]) + others;
      assert Undoes(read, encode, view, items[0]);
      ReadEncodedAll(items[1..], encode, read, view, rest);
      assert Map(view, items) == [view(items[0])] + Map(view, items[1..]);
    }
  }

  lemma ReadEncodedVector<S, T>(
      items: seq<S>, encode: S -> seq<Byte>, read: seq<Byte> -> Result<Parsed<T>, ParseError>, view: S -> T,
      rest: seq<Byte>)
    requires |items| <= MAX_COMPACT_SIZE && forall i :: 0 <= i < |items| ==> Undoes(read, encode, view, items[i])
    ensures ReadVector(EncodeVector(items, encode) + rest, read) == Ok(Parsed(Map(view, items), rest))
  {
    hide EncodeAll, ReadCount, EncodeSize, ReadSize;
    var body := EncodeAll(items, encode) + rest;
    assert EncodeVector(items, encode) + rest == EncodeSize(|items|) + body;
    ReadEncodedSize(|items|, body);
    ReadEncodedAll(items, encode, read, view, rest);
  }

  lemma {:induction false} EncodeAllAppend<S>(items: seq<S>, last: S, encode: S -> seq<Byte>)
    ensures EncodeAll(items + [last], encode) == EncodeAll(items, encode) + encode(last)
  {
    if items == [] {
      assert (items + [last])[1..] == [];
    } else {
      assert (items + [last])[1..] == items[1..] + [last];
      EncodeAllAppend(items[1..], last, encode);
    }
  }

  /** Where every item takes at least a byte, there are no more items than bytes. */
  lemma {:induction false} NoMoreItemsThanBytes<S>(items: seq<S>, encode: S -> seq<Byte>)
    requires forall i :: 0 <= i < |items| ==> encode(items[i]) != []
    ensures |items| <= |EncodeAll(items, encode)|
  {
    if items != [] {
      assert forall i :: 0 <= i < |items[1..]| ==> encode(items[1..][i]) == encode(items[i + 1]);
      NoMoreItemsThanBytes(items[1..], encode);
    }
  }

  lemma {:induction false} NoItemLongerThanAll<S>(items: seq<S>, encode: S -> seq<Byte>, i: nat)
    requires i < |items|
    ensures |encode(items[i])| <= |EncodeAll(items, encode)|
  {
    if i > 0 {
      NoItemLongerThanAll(items[1..], encode, i - 1);
    }
  }

  /** What `read` consumed of `b` is the encoding of a good item with the view that was read. */
  ghost predicate Consumed<S(!new), T>(
      read: seq<Byte> -> Result<Parsed<T>, ParseError>, encode: S -> seq<Byte>, view: S -> T, good: S -> bool,
      b: seq<Byte>)
    requires read(b).Ok?
  {
    exists item ::
      && good(item) && read(b).value == Parsed(view(item), read(b).value.rest)
      && b == encode(item) + read(b).value.rest
  }

  lemma {:induction false} ReadCountIsEncoded<S(!new), T>(
      b: seq<Byte>, count: nat, encode: S -> seq<Byte>, read: seq<Byte> -> Result<Parsed<T>, ParseError>,
      view: S -> T, good: S -> bool)
    returns (items: seq<S>)
    requires forall c :: read(c).Ok? ==> Consumed(read, encode, view, good, c)
    requires ReadCount(b, count, read).Ok?
    ensures |items| == count && forall i :: 0 <= i < count ==> good(items[i])
    ensures Map(view, items) == ReadCount(b, count, read).value.value
    ensures b == EncodeAll(items, encode) + ReadCount(b, count, read).value.rest
    decreases count
  {
    if count == 0 {
      items := [];
      assert Map(view, items) == [] && b == [] + b;
    } else {
      var first := read(b).value;
      assert Consumed(read, encode, view, good, b);
      var item :| good(item) && view(item) == first.value && b == encode(item) + first.rest;
      var others := ReadCountIsEncoded(first.rest, count - 1, encode, read, view, good);
      items := [item] + others;
      var rest := ReadCount(first.rest, count - 1, read).value.rest;
      EncodeAllCons(item, others, encode, rest);
      assert Map(view, items) == [view(item)] + Map(view, others);
    }
  }

  lemma EncodeAllCons<S>(item: S, others: seq<S>, encode: S -> seq<Byte>, rest: seq<Byte>)
    ensures EncodeAll([item] + others, encode) + rest == encode(item) + (EncodeAll(others, encode) + rest)
  {
    assert ([item] + others)[1..] == others;
  }

  /** Vectors, too, read back only from their own encoding. */
  lemma ReadVectorIsEncoded<S(!new), T>(
      b: seq<Byte>, encode: S -> seq<Byte>, read: seq<Byte> -> Result<Parsed<T>, ParseError>, view: S -> T,
      good: S -> bool)
    returns (items: seq<S>)
    requires forall c :: read(c).Ok? ==> Consumed(read, encode, view, good, c)
    requires ReadVector(b, read).Ok?
    ensures |items| <= MAX_COMPACT_SIZE && forall i :: 0 <= i < |items| ==> good(items[i])
    ensures Map(view, items) == ReadVector(b, read).value.value
    ensures b == EncodeVector(items, encode) + ReadVector(b, read).value.rest
  {
    hide EncodeAll, ReadCount, EncodeSize, ReadSize;
    ReadSizeIsEncoded(b);
    var size := ReadSize(b).value;
    items := ReadCountIsEncoded(size.rest, size.value, encode, read, view, good);
    var rest := ReadVector(b, read).value.rest;
    assert EncodeSize(size.value) + (EncodeAll(items, encode) + rest)
             == (EncodeSize(size.value) + EncodeAll(items, encode)) + rest;
  }
}
