/**
The binary form of a time chunk: seconds, then two lists of samples, each a count of
records followed by eight value bytes and a variable-length count per record.

A record is a sample whose value is kept as its 64 bits; `ReadUvarint` follows the variable-length integers of
Go's encoding/binary, ten bytes at most.
*/
module TimeChunkCodec {
  type byte = x: int | 0 <= x < 256
  const WORD: nat := 0x1_0000_0000_0000_0000
  type Word = x: int | 0 <= x < 0x1_0000_0000_0000_0000

  datatype Record = Record(bits: Word, count: Word)
  datatype Chunk = Chunk(seconds: int, x: seq<Record>, y: seq<Record>)

  datatype Failure = Truncated | Overflow | Suspect(count: Word, limit: int)
  datatype Parsed<T> = Ok(value: T, rest: seq<byte>) | Fail(failure: Failure)

  /** Unix seconds are a signed 64-bit integer, and lengths fit into 64 bits. */
  predicate Encodable(c: Chunk) {
    -0x8000_0000_0000_0000 <= c.seconds < 0x8000_0000_0000_0000 && |c.x| < WORD && |c.y| < WORD
  }

  // ---------------------------------------------------------------- words

  function BigEndian(w: nat, k: nat): (r: seq<byte>)
    ensures |r| == k
  {
    if k == 0 then [] else BigEndian(w / 256, k - 1) + [w % 256]
  }

  function FromBytes(s: seq<byte>): nat {
    if s == [] then 0 else FromBytes(s[..|s| - 1]) * 256 + s[|s| - 1]
  }

  function Power256(k: nat): nat {
    if k == 0 then 1 else 256 * Power256(k - 1)
  }

  lemma {:induction false} BigEndianInverts(w: nat, k: nat)
    requires w < Power256(k)
    ensures FromBytes(BigEndian(w, k)) == w
  {
    if k > 0 {
      BigEndianInverts(w / 256, k - 1);
      assert BigEndian(w, k)[..k - 1] == BigEndian(w / 256, k - 1);
    }
  }

  lemma {:induction false} FromBytesFits(s: seq<byte>)
    ensures FromBytes(s) < Power256(|s|)
  {
    if s != [] { FromBytesFits(s[..|s| - 1]); }
  }

  lemma EightBytes()
    ensures Power256(8) == WORD
  {
    assert Power256(2) == 0x1_0000 && Power256(4) == 0x1_0000_0000 && Power256(6) == 0x1_0000_0000_0000;
  }

  function ReadWord(d: seq<byte>): Parsed<Word> {
    if |d| < 8 then Fail(Truncated)
    else
      FromBytesFits(d[..8]);
      EightBytes();
      Ok(FromBytes(d[..8]), d[8..])
  }

  lemma WordRoundTrip(w: Word, rest: seq<byte>)
    ensures ReadWord(BigEndian(w, 8) + rest) == Ok(w, rest)
  {
    EightBytes();
    BigEndianInverts(w, 8);
    assert (BigEndian(w, 8) + rest)[..8] == BigEndian(w, 8);
  }

  // ---------------------------------------------------------------- variable-length integers

  function Uvarint(x: nat): (r: seq<byte>)
    ensures |r| >= 1
  {
    if x < 128 then [x] else [x % 128 + 128] + Uvarint(x / 128)
  }

  /** x << 7i. */
  function Shift(x: nat, i: nat): nat {
    if i == 0 then x else 128 * Shift(x, i - 1)
  }

  /** The i-th byte onwards, with what the bytes before it gave. */
  function UvarintFrom(d: seq<byte>, i: nat, x: nat): Parsed<nat>
    requires i <= 10
    decreases 10 - i
  {
    if i == 10 then Fail(Overflow)
    else if d == [] then Fail(Truncated)
    else if d[0] < 128 then
      if i == 9 && d[0] > 1 then Fail(Overflow) else Ok(x + Shift(d[0], i), d[1..])
    else UvarintFrom(d[1..], i + 1, x + Shift(d[0] - 128, i))
  }

  lemma NinthShift(b: nat)
    ensures Shift(b, 9) == 0x8000_0000_0000_0000 * b
  {
    assert Shift(b, 1) == 128 * b;
    assert Shift(b, 2) == 128 * (128 * b);
    assert Shift(b, 3) == 0x20_0000 * b;
    assert Shift(b, 4) == 128 * (0x20_0000 * b);
    assert Shift(b, 5) == 128 * (128 * (0x20_0000 * b));
    assert Shift(b, 6) == 0x400_0000_0000 * b;
    assert Shift(b, 7) == 128 * (0x400_0000_0000 * b);
    assert Shift(b, 8) == 128 * (128 * (0x400_0000_0000 * b));
  }

  lemma {:induction false} DigitFits(b: nat, i: nat)
    requires b < 128
    ensures Shift(b, i) + Shift(1, i) <= Shift(1, i + 1)
  {
    if i > 0 { DigitFits(b, i - 1); }
  }

  lemma {:induction false} ShiftsFit(i: nat)
    requires i <= 9
    ensures Shift(1, i) < WORD
    decreases 9 - i
  {
    if i == 9 { NinthShift(1); } else { ShiftsFit(i + 1); }
  }

  lemma {:induction false} UvarintShrinks(d: seq<byte>, i: nat, x: nat)
    requires i <= 10
    ensures UvarintFrom(d, i, x).Ok? ==> |UvarintFrom(d, i, x).rest| < |d|
    decreases 10 - i
  {
    if i < 10 && d != [] && d[0] >= 128 { UvarintShrinks(d[1..], i + 1, x + Shift(d[0] - 128, i)); }
  }

  lemma LastByteFits(d: seq<byte>, x: nat)
    requires x < Shift(1, 9) && d != []
    ensures UvarintFrom(d, 9, x).Ok? ==> UvarintFrom(d, 9, x).value < WORD
  {
    NinthShift(1);
    NinthShift(d[0]);
  }

  lemma {:induction false} UvarintFits(d: seq<byte>, i: nat, x: nat)
    requires i <= 9 && x < Shift(1, i)
    ensures UvarintFrom(d, i, x).Ok? ==> UvarintFrom(d, i, x).value < WORD
    decreases 10 - i
  {
    if d != [] {
      if i == 9 {
        LastByteFits(d, x);
      } else if d[0] < 128 {
        DigitFits(d[0], i);
        ShiftsFit(i + 1);
      } else {
        DigitFits(d[0] - 128, i);
        UvarintFits(d[1..], i + 1, x + Shift(d[0] - 128, i));
      }
    }
  }

  function ReadUvarint(d: seq<byte>): Parsed<Word> {
    UvarintFits(d, 0, 0);
    match UvarintFrom(d, 0, 0)
    case Ok(x, rest) => Ok(x, rest)
    case Fail(f) => Fail(f)
  }

  lemma {:induction false} LowDigit(x: nat, i: nat)
    ensures Shift(x, i) == Shift(x % 128, i) + Shift(x / 128, i + 1)
  {
    if i > 0 { LowDigit(x, i - 1); }
  }

  lemma {:induction false} UvarintInverts(x: nat, i: nat, before: nat, rest: seq<byte>)
    requires i <= 9 && Shift(x, i) < WORD
    ensures UvarintFrom(Uvarint(x) + rest, i, before) == Ok(before + Shift(x, i), rest)
    decreases 9 - i
  {
    var d := Uvarint(x) + rest;
    if i == 9 { NinthShift(x); }
    if x < 128 {
      assert d[1..] == rest;
    } else {
      LowDigit(x, i);
      assert d[1..] == Uvarint(x / 128) + rest && d[0] == x % 128 + 128;
      UvarintInverts(x / 128, i + 1, before + Shift(x % 128, i), rest);
    }
  }

  lemma UvarintRoundTrip(x: Word, rest: seq<byte>)
    ensures ReadUvarint(Uvarint(x) + rest) == Ok(x, rest)
  {
    UvarintInverts(x, 0, 0, rest);
  }

  // ---------------------------------------------------------------- samples and chunks

  function EncodeEach(s: seq<Record>): seq<byte> {
    if s == [] then [] else BigEndian(s[0].bits, 8) + Uvarint(s[0].count) + EncodeEach(s[1..])
  }

  function EncodeSamples(s: seq<Record>): seq<byte> {
    Uvarint(|s|) + EncodeEach(s)
  }

  /** A negative number of seconds is written as its two's complement. */
  function EncodeSeconds(t: int): seq<byte> {
    BigEndian(t % WORD, 8)
  }

  function Encode(c: Chunk): seq<byte> {
    EncodeSeconds(c.seconds) + EncodeSamples(c.x) + EncodeSamples(c.y)
  }

  function ReadSample(d: seq<byte>): Parsed<Record> {
    match ReadWord(d)
    case Fail(f) => Fail(f)
    case Ok(bits, d1) =>
      match ReadUvarint(d1)
      case Fail(f) => Fail(f)
      case Ok(count, d2) => Ok(Record(bits, count), d2)
  }

  function Prepended(s: seq<Record>, p: Parsed<seq<Record>>): Parsed<seq<Record>> {
    match p
    case Ok(t, rest) => Ok(s + t, rest)
    case Fail(f) => Fail(f)
  }

  function ReadEach(d: seq<byte>, n: nat): Parsed<seq<Record>> {
    if n == 0 then Ok([], d)
    else
      match ReadSample(d)
      case Fail(f) => Fail(f)
      case Ok(sample, d1) => Prepended([sample], ReadEach(d1, n - 1))
  }

  function ReadSamples(d: seq<byte>, limit: int): Parsed<seq<Record>> {
    match ReadUvarint(d)
    case Fail(f) => Fail(f)
    case Ok(n, d1) => if n > limit then Fail(Suspect(n, limit)) else ReadEach(d1, n)
  }

  function ToSigned(w: Word): int {
    if w < 0x8000_0000_0000_0000 then w else w - WORD
  }

  function ReadLists(d: seq<byte>, seconds: int, limit: int): Parsed<Chunk> {
    match ReadSamples(d, limit)
    case Fail(f) => Fail(f)
    case Ok(x, d1) =>
      match ReadSamples(d1, limit)
      case Fail(f) => Fail(f)
      case Ok(y, d2) => Ok(Chunk(seconds, x, y), d2)
  }

  /** Decoding under a limit on the number of records in either list. */
  function DecodeWithin(d: seq<byte>, limit: int): Parsed<Chunk> {
    match ReadWord(d)
    case Fail(f) => Fail(f)
    case Ok(w, d1) => ReadLists(d1, ToSigned(w), limit)
  }

  /** uint64((length - 10) / 9): Go's division truncates, its conversion wraps around. */
  function SafeRecordCount(length: nat): Word {
    (if length >= 10 then (length - 10) / 9 else -((10 - length) / 9)) % WORD
  }

  function Decode(d: seq<byte>): Parsed<Chunk> {
    DecodeWithin(d, SafeRecordCount(|d|))
  }

  // ---------------------------------------------------------------- round trips

  lemma Reassociate(a: seq<byte>, b: seq<byte>, c: seq<byte>, d: seq<byte>)
    ensures a + b + c + d == a + (b + (c + d))
  {
  }

  lemma SampleRoundTrip(s: Record, rest: seq<byte>)
    ensures ReadSample(BigEndian(s.bits, 8) + (Uvarint(s.count) + rest)) == Ok(s, rest)
  {
    WordRoundTrip(s.bits, Uvarint(s.count) + rest);
    UvarintRoundTrip(s.count, rest);
  }

  lemma {:induction false} EachRoundTrip(s: seq<Record>, rest: seq<byte>)
    ensures ReadEach(EncodeEach(s) + rest, |s|) == Ok(s, rest)
  {
    if s == [] {
      assert EncodeEach(s) + rest == rest;
    } else {
      var tail := EncodeEach(s[1..]) + rest;
      Reassociate(BigEndian(s[0].bits, 8), Uvarint(s[0].count), EncodeEach(s[1..]), rest);
      SampleRoundTrip(s[0], tail);
      EachRoundTrip(s[1..], rest);
      assert [s[0]] + s[1..] == s;
    }
  }

  lemma SamplesRoundTrip(s: seq<Record>, rest: seq<byte>, limit: int)
    requires |s| <= limit && |s| < WORD
    ensures ReadSamples(EncodeSamples(s) + rest, limit) == Ok(s, rest)
  {
    assert EncodeSamples(s) + rest == Uvarint(|s|) + (EncodeEach(s) + rest);
    UvarintRoundTrip(|s|, EncodeEach(s) + rest);
    EachRoundTrip(s, rest);
  }

  lemma {:induction false} EachIsLong(s: seq<Record>)
    ensures |EncodeEach(s)| >= 9 * |s|
  {
    if s != [] { EachIsLong(s[1..]); }
  }

  lemma ListsRoundTrip(c: Chunk, rest: seq<byte>, limit: int)
    requires Encodable(c) && |c.x| <= limit && |c.y| <= limit
    ensures ReadLists(EncodeSamples(c.x) + (EncodeSamples(c.y) + rest), c.seconds, limit) == Ok(c, rest)
  {
    SamplesRoundTrip(c.x, EncodeSamples(c.y) + rest, limit);
    SamplesRoundTrip(c.y, rest, limit);
  }

  lemma SecondsRoundTrip(t: int, rest: seq<byte>)
    requires -0x8000_0000_0000_0000 <= t < 0x8000_0000_0000_0000
    ensures ReadWord(EncodeSeconds(t) + rest) == Ok(t % WORD, rest) && ToSigned(t % WORD) == t
  {
    WordRoundTrip(t % WORD, rest);
  }

  lemma DecodeWithinRoundTrip(c: Chunk, rest: seq<byte>, limit: int)
    requires Encodable(c) && |c.x| <= limit && |c.y| <= limit
    ensures DecodeWithin(Encode(c) + rest, limit) == Ok(c, rest)
  {
    var lists := EncodeSamples(c.x) + (EncodeSamples(c.y) + rest);
    assert Encode(c) + rest == EncodeSeconds(c.seconds) + lists;
    SecondsRoundTrip(c.seconds, lists);
    ListsRoundTrip(c, rest, limit);
  }

  /** An encoded chunk decodes to itself, whatever follows it; the limit never stands in the way. */
  lemma DecodeInvertsEncode(c: Chunk, rest: seq<byte>)
    requires Encodable(c) && |Encode(c) + rest| < WORD
    ensures Decode(Encode(c) + rest) == Ok(c, rest)
  {
    EachIsLong(c.x);
    EachIsLong(c.y);
    var length := |Encode(c) + rest|;
    assert length >= 10 + 9 * (|c.x| + |c.y|);
    assert SafeRecordCount(length) == (length - 10) / 9;
    DecodeWithinRoundTrip(c, rest, SafeRecordCount(length));
  }

  lemma {:induction false} EachShrinks(d: seq<byte>, n: nat)
    ensures ReadEach(d, n).Ok? ==> |ReadEach(d, n).value| == n && |d| >= 9 * n + |ReadEach(d, n).rest|
  {
    if n > 0 && ReadSample(d).Ok? {
      UvarintShrinks(ReadWord(d).rest, 0, 0);
      EachShrinks(ReadSample(d).rest, n - 1);
    }
  }

  lemma SamplesShrink(d: seq<byte>, limit: int)
    ensures ReadSamples(d, limit).Ok? ==> |d| >= 1 + 9 * |ReadSamples(d, limit).value| + |ReadSamples(d, limit).rest|
  {
    UvarintShrinks(d, 0, 0);
    if ReadUvarint(d).Ok? { EachShrinks(ReadUvarint(d).rest, ReadUvarint(d).value); }
  }

  lemma LimitOnList(d: seq<byte>, limit: Word)
    requires ReadSamples(d, limit).Ok? || (ReadSamples(d, WORD).Ok? && |ReadSamples(d, WORD).value| <= limit)
    ensures ReadSamples(d, limit) == ReadSamples(d, WORD)
  {
    EachShrinks(ReadUvarint(d).rest, ReadUvarint(d).value);
  }

  lemma ListsFitLimit(d: seq<byte>)
    requires |d| < WORD && DecodeWithin(d, WORD).Ok?
    ensures var c := DecodeWithin(d, WORD).value; |c.x| <= SafeRecordCount(|d|) && |c.y| <= SafeRecordCount(|d|)
  {
    var d1 := ReadWord(d).rest;
    SamplesShrink(d1, WORD);
    SamplesShrink(ReadSamples(d1, WORD).rest, WORD);
    var c := DecodeWithin(d, WORD).value;
    RecordsFit(|d|, |c.x|, |c.y|);
  }

  lemma RecordsFit(length: nat, n: nat, m: nat)
    requires WORD > length >= 10 + 9 * n + 9 * m
    ensures n <= SafeRecordCount(length) && m <= SafeRecordCount(length)
  {
    assert SafeRecordCount(length) == (length - 10) / 9;
  }

  /** The safety limit rejects nothing that could have been decoded: any bytes decode with it exactly
      when they decode without it, and to the same. */
  lemma LimitIsHarmless(d: seq<byte>)
    requires |d| < WORD
    ensures Decode(d).Ok? <==> DecodeWithin(d, WORD).Ok?
    ensures Decode(d).Ok? ==> Decode(d) == DecodeWithin(d, WORD)
  {
    if Decode(d).Ok? || DecodeWithin(d, WORD).Ok? {
      if !Decode(d).Ok? { ListsFitLimit(d); }
      var limit := SafeRecordCount(|d|);
      var d1 := ReadWord(d).rest;
      LimitOnList(d1, limit);
      LimitOnList(ReadSamples(d1, limit).rest, limit);
    }
  }

  function EncodeAll(cs: seq<Chunk>): seq<byte> {
    if cs == [] then [] else Encode(cs[0]) + EncodeAll(cs[1..])
  }

  lemma EncodingIsPrefixFree(c: Chunk, d: Chunk, after: seq<byte>, rest: seq<byte>)
    requires Encodable(c) && Encodable(d) && Encode(c) + after == Encode(d) + rest
    ensures c == d && after == rest
  {
    DecodeWithinRoundTrip(c, after, WORD);
    DecodeWithinRoundTrip(d, rest, WORD);
  }

  /** A stream of chunks, one after the other without separators, can be read in one way only. */
  lemma {:induction false} StreamsAreUnique(cs: seq<Chunk>, ds: seq<Chunk>)
    requires (forall c :: c in cs ==> Encodable(c)) && (forall d :: d in ds ==> Encodable(d))
             && EncodeAll(cs) == EncodeAll(ds)
    ensures cs == ds
  {
    if cs != [] && ds != [] {
      EncodingIsPrefixFree(cs[0], ds[0], EncodeAll(cs[1..]), EncodeAll(ds[1..]));
      StreamsAreUnique(cs[1..], ds[1..]);
      assert cs == [cs[0]] + cs[1..] && ds == [ds[0]] + ds[1..];
    }
  }

  /** Decoding accepts more than encoding writes: a count may be padded with zero digits. */
  lemma PaddedCountsDecode()
    ensures ReadUvarint([0x80, 0x00]) == Ok(0, []) && ReadUvarint([0x00]) == Ok(0, []) && Uvarint(0) == [0x00]
  {
    assert [0x80, 0x00][1..] == [0x00] && [0x00][1..] == [];
  }

  // ---------------------------------------------------------------- writing and reading

  /** binary.MaxVarintLen64: ten bytes are enough for any 64-bit number. */
  lemma {:induction false} TenBytesSuffice(x: nat, i: nat)
    requires i <= 9 && Shift(x, i) < WORD
    ensures |Uvarint(x)| <= 10 - i
    decreases 9 - i
  {
    if i == 9 { NinthShift(x); }
    if x >= 128 {
      LowDigit(x, i);
      TenBytesSuffice(x / 128, i + 1);
    }
  }

  // ---------------------------------------------------------------- the bytes themselves

  /** The number without its `k` lowest bytes. */
  function WithoutBytes(x: nat, k: nat): nat {
    if k == 0 then x else WithoutBytes(x / 256, k - 1)
  }

  /** The number without its `k` lowest groups of seven bits. */
  function WithoutSevens(x: nat, k: nat): nat {
    if k == 0 then x else WithoutSevens(x / 128, k - 1)
  }

  /** The most significant byte of a word comes first. */
  lemma {:induction false} BigEndianDigit(w: nat, k: nat, i: nat)
    requires i < k
    ensures BigEndian(w, k)[i] == WithoutBytes(w, k - 1 - i) % 256
  {
    if i < k - 1 { BigEndianDigit(w / 256, k - 1, i); }
  }

  /** The lowest seven bits of a count come first, and every byte but the last is marked. */
  lemma {:induction false} UvarintDigit(x: nat, i: nat)
    requires i < |Uvarint(x)|
    ensures Uvarint(x)[i] % 128 == WithoutSevens(x, i) % 128
    ensures Uvarint(x)[i] >= 128 <==> i < |Uvarint(x)| - 1
  {
    if x >= 128 && i > 0 { UvarintDigit(x / 128, i - 1); }
  }

  /** A count below 128 is one byte. */
  lemma ShortUvarint(x: nat)
    ensures |Uvarint(x)| == 1 <==> x < 128
    ensures x < 128 ==> Uvarint(x) == [x]
  {
  }

  lemma At(a: seq<byte>, b: seq<byte>, i: nat)
    requires i < |b|
    ensures (a + b)[|a| + i] == b[i]
  {
  }

  /** The seconds fill bytes 0 to 7, the highest first; then comes the number of `x`, its records with the value
      before the count, and then the number of `y`. */
  lemma ChunkLayout(c: Chunk, i: nat)
    requires i < 8 && |c.x| < 128
    ensures |Encode(c)| >= 10
    ensures Encode(c)[i] == WithoutBytes(c.seconds % WORD, 7 - i) % 256 && Encode(c)[8] == |c.x|
    ensures c.x == [] && |c.y| < 128 ==> Encode(c)[9] == |c.y|
    ensures c.x != [] ==> |Encode(c)| >= 19 && Encode(c)[9 + i] == WithoutBytes(c.x[0].bits, 7 - i) % 256
    ensures c.x != [] && c.x[0].count < 128 ==> Encode(c)[17] == c.x[0].count
    ensures |c.x| == 1 && c.x[0].count < 128 && |c.y| < 128 ==> Encode(c)[18] == |c.y|
  {
    var seconds := EncodeSeconds(c.seconds);
    var tail := EncodeSamples(c.x) + EncodeSamples(c.y);
    BigEndianDigit(c.seconds % WORD, 8, i);
    assert Encode(c) == seconds + tail;
    ListLayout(c.x, EncodeSamples(c.y), i);
    ShortUvarint(|c.y|);
    At(seconds, tail, 0);
    At(seconds, tail, 1);
    if c.x != [] {
      At(seconds, tail, 1 + i);
      At(seconds, tail, 9);
      At(seconds, tail, 10);
    }
  }

  lemma ListLayout(s: seq<Record>, rest: seq<byte>, i: nat)
    requires i < 8 && |s| < 128 && rest != []
    ensures var d := EncodeSamples(s) + rest;
            && |d| >= 2 && d[0] == |s| && (s == [] ==> d[1] == rest[0])
            && (s != [] ==>
                  && |d| >= 11 && d[1 + i] == WithoutBytes(s[0].bits, 7 - i) % 256
                  && (s[0].count < 128 ==> d[9] == s[0].count)
                  && (|s| == 1 && s[0].count < 128 ==> d[10] == rest[0]))
  {
    ShortUvarint(|s|);
    if s != [] {
      BigEndianDigit(s[0].bits, 8, i);
      ShortUvarint(s[0].count);
      var first, more := BigEndian(s[0].bits, 8), Uvarint(s[0].count) + EncodeEach(s[1..]) + rest;
      assert EncodeSamples(s) + rest == [|s|] + (first + more);
      At([|s|], first + more, i);
      At([|s|], first + more, 8);
      At(first, more, 0);
      if |s| == 1 && s[0].count < 128 {
        assert more == [s[0].count] + rest;
        At([|s|], first + more, 9);
        At(first, more, 1);
      }
    }
  }

  /** A list that claims more records than its chunk has room for is refused before any is read. */
  lemma SuspectCountsAreRefused(d: seq<byte>)
    requires |d| >= 10 && ReadUvarint(d[8..]).Ok? && ReadUvarint(d[8..]).value > (|d| - 10) / 9
    ensures Decode(d) == Fail(Suspect(ReadUvarint(d[8..]).value, (|d| - 10) / 9))
  {
  }

  // ---------------------------------------------------------------- writing and reading

  method PutUvarint(x: Word) returns (buf: seq<byte>)
    ensures buf == Uvarint(x) && |buf| <= 10
  {
    TenBytesSuffice(x, 0);
    buf := [];
    var v := x;
    while v >= 128
      invariant Uvarint(x) == buf + Uvarint(v)
      decreases v
    {
      buf := buf + [v % 128 + 128];
      v := v / 128;
    }
    buf := buf + [v];
  }

  lemma PrependedNothing(p: Parsed<seq<Record>>)
    ensures Prepended([], p) == p
  {
    if p.Ok? { assert [] + p.value == p.value; }
  }

  /** Reading one more record after those that have been read. */
  lemma OneMoreRecord(s: seq<Record>, d: seq<byte>, n: nat)
    requires n > 0
    ensures Prepended(s, ReadEach(d, n)) ==
            match ReadSample(d)
            case Fail(f) => Fail(f)
            case Ok(sample, rest) => Prepended(s + [sample], ReadEach(rest, n - 1))
  {
    if ReadSample(d).Ok? {
      var tail := ReadEach(ReadSample(d).rest, n - 1);
      if tail.Ok? { assert s + [ReadSample(d).value] + tail.value == s + ([ReadSample(d).value] + tail.value); }
    }
  }

  class Writer {
    var buf: seq<byte>

    constructor ()
      ensures buf == []
    {
      buf := [];
    }

    method WriteSamples(samples: seq<Record>)
      requires |samples| < WORD
      modifies this
      ensures buf == old(buf) + EncodeSamples(samples)
    {
      var bytes := PutUvarint(|samples|);
      buf := buf + bytes;
      ghost var start := buf;
      for i := 0 to |samples|
        invariant buf + EncodeEach(samples[i..]) == start + EncodeEach(samples)
      {
        assert samples[i..][0] == samples[i] && samples[i..][1..] == samples[i + 1..];
        buf := buf + BigEndian(samples[i].bits, 8);
        bytes := PutUvarint(samples[i].count);
        buf := buf + bytes;
      }
      assert buf + [] == buf;
    }
  }

  method EncodeChunk(c: Chunk) returns (data: seq<byte>)
    requires Encodable(c)
    ensures data == Encode(c)
  {
    var w := new Writer();
    w.buf := w.buf + EncodeSeconds(c.seconds);
    w.WriteSamples(c.x);
    w.WriteSamples(c.y);
    data := w.buf;
  }

  lemma OneMoreByte(d: seq<byte>, i: nat, x: nat)
    requires d != [] && i < 10
    ensures UvarintFrom(d, i, x) ==
            if d[0] >= 128 then UvarintFrom(d[1..], i + 1, x + Shift(d[0] - 128, i))
            else if i == 9 && d[0] > 1 then Fail(Overflow)
            else Ok(x + Shift(d[0], i), d[1..])
  {
  }

  /** What is left to read; after a failure it is of no interest. */
  class Reader {
    var rest: seq<byte>

    constructor (data: seq<byte>)
      ensures rest == data
    {
      rest := data;
    }

    method NextWord() returns (r: Parsed<Word>)
      modifies this
      ensures r == ReadWord(old(rest)) && (r.Ok? ==> r.rest == rest)
    {
      r := ReadWord(rest);
      if r.Ok? { rest := rest[8..]; }
    }

    method NextUvarint() returns (r: Parsed<Word>)
      modifies this
      ensures r == ReadUvarint(old(rest)) && (r.Ok? ==> r.rest == rest)
    {
      ghost var start := rest;
      UvarintFits(start, 0, 0);
      var x: nat := 0;
      for i := 0 to 10
        invariant UvarintFrom(start, 0, 0) == UvarintFrom(rest, i, x)
      {
        if rest == [] { return Fail(Truncated); }
        OneMoreByte(rest, i, x);
        var b := rest[0];
        rest := rest[1..];
        if b < 128 {
          if i == 9 && b > 1 { return Fail(Overflow); }
          return Ok(x + Shift(b, i), rest);
        }
        x := x + Shift(b - 128, i);
      }
      return Fail(Overflow);
    }

    method NextSample() returns (r: Parsed<Record>)
      modifies this
      ensures r == ReadSample(old(rest)) && (r.Ok? ==> r.rest == rest)
    {
      var bits := NextWord();
      if bits.Fail? { return Fail(bits.failure); }
      var count := NextUvarint();
      if count.Fail? { return Fail(count.failure); }
      return Ok(Record(bits.value, count.value), count.rest);
    }

    method NextSamples(limit: Word) returns (r: Parsed<seq<Record>>)
      modifies this
      ensures r == ReadSamples(old(rest), limit) && (r.Ok? ==> r.rest == rest)
    {
      var count := NextUvarint();
      if count.Fail? { return Fail(count.failure); }
      var n := count.value;
      if n > limit { return Fail(Suspect(n, limit)); }
      r := NextEach(n);
    }

    method NextEach(n: nat) returns (r: Parsed<seq<Record>>)
      modifies this
      ensures r == ReadEach(old(rest), n) && (r.Ok? ==> r.rest == rest)
    {
      var samples: seq<Record> := [];
      ghost var start := rest;
      PrependedNothing(ReadEach(start, n));
      for i := 0 to n
        invariant ReadEach(start, n) == Prepended(samples, ReadEach(rest, n - i))
      {
        OneMoreRecord(samples, rest, n - i);
        var sample := NextSample();
        if sample.Fail? { return Fail(sample.failure); }
        samples := samples + [sample.value];
      }
      assert samples + [] == samples;
      return Ok(samples, rest);
    }
  }

  method DecodeChunk(data: seq<byte>) returns (r: Parsed<Chunk>)
    ensures r == Decode(data)
  {
    var reader := new Reader(data);
    var w := reader.NextWord();
    if w.Fail? { return Fail(w.failure); }
    var limit := SafeRecordCount(|data|);
    var x := reader.NextSamples(limit);
    if x.Fail? { return Fail(x.failure); }
    var y := reader.NextSamples(limit);
    if y.Fail? { return Fail(y.failure); }
    return Ok(Chunk(ToSigned(w.value), x.value, y.value), y.rest);
  }
}
