/** Padding of a protected scalar to a fixed bucket length before encryption
    (frontend/src/e2ee/scalar-codec.ts).

    A plaintext is the CBOR array [1, state, value, padding]. Only the definite-length array
    head, small unsigned integers and definite-length byte strings are needed, encoded with the
    shortest heads (sections 3 and 4.2.1 of RFC 8949). */
module ScalarPadding {
  import opened Options

  type Byte = x: int | 0 <= x < 256

  datatype Padded = Padded(bytes: seq<Byte>) | TooLarge | Invalid | SourceFailed

  /** Gives as many bytes as it is asked for; None stands for an exception. */
  type RandomSource = nat -> Option<seq<Byte>>

  datatype Scalar = Scalar(state: Byte, value: seq<Byte>, padding: seq<Byte>)

  datatype Decoded = Decoded(scalar: Scalar) | Malformed

  const PADDING_BUCKETS: seq<nat> := [256, 1024, 4096, 16384, 65536, 262144, 1048576]

  // ---------- byte strings in CBOR ----------

  function BigEndian(n: nat, width: nat): (bytes: seq<Byte>)
    ensures |bytes| == width
  {
    if width == 0 then [] else BigEndian(n / 256, width - 1) + [n % 256]
  }

  function FromBigEndian(bytes: seq<Byte>): nat {
    if bytes == [] then 0 else 256 * FromBigEndian(bytes[..|bytes| - 1]) + bytes[|bytes| - 1]
  }

  function Pow256(width: nat): nat {
    if width == 0 then 1 else 256 * Pow256(width - 1)
  }

  lemma {:induction false} BigEndianRoundTrip(n: nat, width: nat)
    requires n < Pow256(width)
    ensures FromBigEndian(BigEndian(n, width)) == n
  {
    if width > 0 {
      BigEndianRoundTrip(n / 256, width - 1);
      assert BigEndian(n, width)[..width - 1] == BigEndian(n / 256, width - 1);
    }
  }

  lemma EightByteLengths()
    ensures Pow256(8) > 0x1_0000_0000
  {
    assert Pow256(3) == 0x100_0000;
    assert Pow256(6) == 256 * (256 * (256 * Pow256(3)));
  }

  /** Number of bytes that announce the length of a byte string: 0, 1, 2, 4 or 8 after the initial one. */
  function LengthWidth(n: nat): nat {
    if n < 24 then 0 else if n < 0x100 then 1 else if n < 0x1_0000 then 2 else if n < 0x1_0000_0000 then 4 else 8
  }

  function Head(n: nat): (head: seq<Byte>)
    ensures |head| == 1 + LengthWidth(n)
  {
    match LengthWidth(n)
    case 0 => [0x40 + n]
    case 1 => [0x58] + BigEndian(n, 1)
    case 2 => [0x59] + BigEndian(n, 2)
    case 4 => [0x5a] + BigEndian(n, 4)
    case _ => [0x5b] + BigEndian(n, 8)
  }

  /** Encoded length of a byte string of n bytes. */
  function FieldLength(n: nat): nat {
    1 + LengthWidth(n) + n
  }

  function EncodeBytes(bytes: seq<Byte>): (encoded: seq<Byte>)
    ensures |encoded| == FieldLength(|bytes|)
  {
    Head(|bytes|) + bytes
  }

  function EncodeScalar(scalar: Scalar): (encoded: seq<Byte>)
    ensures |encoded| == 3 + FieldLength(|scalar.value|) + FieldLength(|scalar.padding|)
  {
    [0x84, 1, scalar.state] + EncodeBytes(scalar.value) + EncodeBytes(scalar.padding)
  }

  // ---------- reading a plaintext back ----------

  /** Width of the length that follows an initial byte-string byte; None for any other item. */
  datatype Width = Width(bytes: nat) | NotBytes

  function WidthOf(initial: Byte): Width {
    if 0x40 <= initial < 0x58 then Width(0)
    else if initial == 0x58 then Width(1)
    else if initial == 0x59 then Width(2)
    else if initial == 0x5a then Width(4)
    else if initial == 0x5b then Width(8)
    else NotBytes
  }

  datatype Item = Item(bytes: seq<Byte>, rest: seq<Byte>) | NoItem

  function DecodeBytes(input: seq<Byte>): Item {
    if input == [] || WidthOf(input[0]).NotBytes? then NoItem else
      var width := WidthOf(input[0]).bytes;
      if |input| < 1 + width then NoItem else
        var length := if width == 0 then input[0] - 0x40 else FromBigEndian(input[1..1 + width]);
        if |input| < 1 + width + length then NoItem
        else Item(input[1 + width..1 + width + length], input[1 + width + length..])
  }

  function DecodeScalar(input: seq<Byte>): Decoded {
    if |input| < 3 || input[0] != 0x84 || input[1] != 1 then Malformed else
      var value := DecodeBytes(input[3..]);
      if value.NoItem? then Malformed else
        var padding := DecodeBytes(value.rest);
        if padding.NoItem? || padding.rest != [] then Malformed
        else Decoded(Scalar(input[2], value.bytes, padding.bytes))
  }

  lemma HeadEndsWithLength(n: nat)
    requires LengthWidth(n) > 0
    ensures Head(n)[1..] == BigEndian(n, LengthWidth(n))
  {
    hide BigEndian;
  }

  lemma DecodeEncodedBytes(bytes: seq<Byte>, rest: seq<Byte>)
    requires |bytes| < Pow256(8)
    ensures DecodeBytes(EncodeBytes(bytes) + rest) == Item(bytes, rest)
  {
    var input := EncodeBytes(bytes) + rest;
    var width := LengthWidth(|bytes|);
    assert Pow256(1) == 0x100 && Pow256(2) == 0x1_0000 && Pow256(4) == 0x1_0000_0000;
    assert WidthOf(input[0]) == Width(width);
    if width > 0 {
      HeadEndsWithLength(|bytes|);
      assert input[1..1 + width] == Head(|bytes|)[1..];
      BigEndianRoundTrip(|bytes|, width);
    }
    assert input[1 + width..1 + width + |bytes|] == bytes;
    assert input[1 + width + |bytes|..] == rest;
  }

  /** A plaintext decodes to exactly the array it was encoded from. */
  lemma ScalarRoundTrip(scalar: Scalar)
    requires |scalar.value| < Pow256(8) && |scalar.padding| < Pow256(8)
    ensures DecodeScalar(EncodeScalar(scalar)) == Decoded(scalar)
  {
    var input := EncodeScalar(scalar);
    assert input[3..] == EncodeBytes(scalar.value) + EncodeBytes(scalar.padding);
    DecodeEncodedBytes(scalar.value, EncodeBytes(scalar.padding));
    assert EncodeBytes(scalar.padding) + [] == EncodeBytes(scalar.padding);
    DecodeEncodedBytes(scalar.padding, []);
  }

  // ---------- which paddings exist ----------

  /** First bucket that holds the value with an empty padding; 0 when there is none. */
  function BucketFrom(index: nat, valueLength: nat): (bucket: nat)
    requires index <= |PADDING_BUCKETS|
    ensures bucket != 0 ==> bucket in PADDING_BUCKETS && 3 + FieldLength(valueLength) + 1 <= bucket
    decreases |PADDING_BUCKETS| - index
  {
    if index == |PADDING_BUCKETS| then 0
    else if PADDING_BUCKETS[index] >= 3 + FieldLength(valueLength) + 1 then PADDING_BUCKETS[index]
    else BucketFrom(index + 1, valueLength)
  }

  function BucketFor(valueLength: nat): nat {
    BucketFrom(0, valueLength)
  }

  /** Bytes that are left for the whole padding field. */
  function Room(valueLength: nat): nat
    requires BucketFor(valueLength) != 0
  {
    BucketFor(valueLength) - 3 - FieldLength(valueLength)
  }

  /** Lengths that no encoded byte string (below four gigabytes) has: the jumps of the head size. */
  const GAPS: set<nat> := {25, 258, 65539, 65540}

  /** The only padding length whose field fills the given room. */
  function PaddingFor(room: nat): (padding: nat)
    requires 0 < room < 0x1_0000_0000 && room !in GAPS
    ensures FieldLength(padding) == room
  {
    if room < 25 then room - 1 else if room < 258 then room - 2
    else if room < 65539 then room - 3 else room - 5
  }

  lemma RoomIsReachableUnlessGap(room: nat)
    requires 0 < room < 0x1_0000_0000
    ensures (exists padding: nat :: FieldLength(padding) == room) <==> room !in GAPS
  {
    if room !in GAPS {
      assert FieldLength(PaddingFor(room)) == room;
    }
  }

  // ---------- the fix-point iteration ----------

  /** Padding length tried by the given attempt. */
  function Guess(room: nat, attempt: nat): (padding: nat)
    requires 0 < room < 0x1_0000_0000
    ensures padding < room
  {
    if attempt == 0 then room - 1
    else var previous := Guess(room, attempt - 1); previous + room - FieldLength(previous)
  }

  lemma GuessConverges(room: nat)
    requires 0 < room < 0x1_0000_0000 && room !in GAPS
    ensures exists attempt: nat :: attempt < 3 && Guess(room, attempt) == PaddingFor(room)
    ensures forall padding: nat :: FieldLength(padding) == room ==> padding == PaddingFor(room)
  {
    if room < 25 {
      assert Guess(room, 0) == PaddingFor(room);
    } else if LengthWidth(room - 1) == LengthWidth(PaddingFor(room)) {
      assert Guess(room, 1) == PaddingFor(room);
    } else {
      assert Guess(room, 1) == room - 1 - LengthWidth(room - 1);
      assert Guess(room, 2) == PaddingFor(room);
    }
  }

  /** In a gap the guesses alternate between two lengths, one encoding too short and one too long. */
  lemma {:induction false} GuessOscillates(room: nat, attempt: nat)
    requires room in GAPS
    ensures FieldLength(Guess(room, attempt)) != room
    ensures attempt > 0 ==> Guess(room, attempt + 2) == Guess(room, attempt) != Guess(room, attempt + 1)
  {
    if attempt > 0 {
      GuessOscillates(room, attempt - 1);
      if attempt == 1 {
        assert Guess(room, 3) == Guess(room, 1);
      }
    }
  }

  lemma HitIsThePadding(room: nat, attempt: nat)
    requires 0 < room < 0x1_0000_0000 && FieldLength(Guess(room, attempt)) == room
    requires forall tried: nat :: tried < attempt ==> FieldLength(Guess(room, tried)) != room
    ensures room !in GAPS && Guess(room, attempt) == PaddingFor(room) && attempt < 3
  {
    if room in GAPS {
      GuessOscillates(room, attempt);
    }
    GuessConverges(room);
  }

  lemma EightMissesMeanGap(room: nat)
    requires 0 < room < 0x1_0000_0000
    requires forall tried: nat :: tried < 8 ==> FieldLength(Guess(room, tried)) != room
    ensures room in GAPS
  {
    if room !in GAPS {
      GuessConverges(room);
    }
  }

  /** Every padded plaintext decodes to the value it was made from. */
  lemma PaddedScalarDecodes(scalar: Scalar)
    requires |EncodeScalar(scalar)| in PADDING_BUCKETS
    ensures DecodeScalar(EncodeScalar(scalar)) == Decoded(scalar)
  {
    EightByteLengths();
    ScalarRoundTrip(scalar);
  }

  method FindBucket(emptyLength: nat, ghost valueLength: nat) returns (bucket: nat)
    requires emptyLength == 4 + FieldLength(valueLength)
    ensures bucket == BucketFor(valueLength)
  {
    var index := 0;
    while index < |PADDING_BUCKETS| && PADDING_BUCKETS[index] < emptyLength
      invariant index <= |PADDING_BUCKETS|
      invariant BucketFor(valueLength) == BucketFrom(index, valueLength)
    {
      index := index + 1;
    }
    return if index == |PADDING_BUCKETS| then 0 else PADDING_BUCKETS[index];
  }

  /** What padding amounts to: the bucket is found, the room left is no gap, and the source gives the bytes. */
  function PaddedWith(state: Byte, value: seq<Byte>, randomBytes: RandomSource): Padded {
    if BucketFor(|value|) == 0 then TooLarge
    else if Room(|value|) in GAPS then Invalid
    else
      var length := PaddingFor(Room(|value|));
      match randomBytes(length)
      case None => SourceFailed
      case Some(padding) => if |padding| == length then Padded(EncodeScalar(Scalar(state, value, padding))) else Invalid
  }

  /** Pads to the bucket length or fails; also reports how many encodings were tried. */
  method PaddedPlaintext(state: Byte, value: seq<Byte>, randomBytes: RandomSource)
    returns (result: Padded, attempts: nat)
    ensures result == PaddedWith(state, value, randomBytes)
    ensures result.Padded? ==>
              && DecodeScalar(result.bytes).Decoded?
              && var scalar := DecodeScalar(result.bytes).scalar;
                 scalar.state == state && scalar.value == value && randomBytes(|scalar.padding|) == Some(scalar.padding)
    ensures result.Padded? ==> |result.bytes| == BucketFor(|value|) && |result.bytes| in PADDING_BUCKETS
    ensures BucketFor(|value|) != 0 ==> if Room(|value|) in GAPS then attempts == 8 else attempts <= 3
  {
    attempts := 0;
    var emptyLength := |EncodeScalar(Scalar(state, value, []))|;
    var bucket := FindBucket(emptyLength, |value|);
    if bucket == 0 {
      return TooLarge, attempts;
    }
    ghost var room := Room(|value|);
    var paddingLength: int := bucket - emptyLength;
    while attempts < 8
      invariant attempts <= 8
      invariant paddingLength == Guess(room, attempts)
      invariant forall tried: nat :: tried < attempts ==> FieldLength(Guess(room, tried)) != room
    {
      var candidate := EncodeScalar(Scalar(state, value, seq(paddingLength, _ => 0)));
      var difference := bucket - |candidate|;
      ghost var tried := attempts;
      attempts := attempts + 1;
      if difference == 0 {
        HitIsThePadding(room, tried);
        var padding := randomBytes(paddingLength);
        if padding.None? {
          return SourceFailed, attempts;
        }
        if |padding.value| != paddingLength {
          return Invalid, attempts;
        }
        EightByteLengths();
        ScalarRoundTrip(Scalar(state, value, padding.value));
        return Padded(EncodeScalar(Scalar(state, value, padding.value))), attempts;
      }
      paddingLength := paddingLength + difference;
      if paddingLength < 0 {
        break;
      }
    }
    EightMissesMeanGap(room);
    return Invalid, attempts;
  }

  /** The shortest head of a byte string: its length is in the first byte or in the one, two or four bytes behind. */
  lemma HeadExactly(n: nat)
    requires n < 0x1_0000_0000
    ensures var head := Head(n);
            if n < 24 then head == [0x40 + n]
            else if n < 0x100 then head == [0x58, n]
            else if n < 0x1_0000 then |head| == 3 && head[0] == 0x59 && 0x100 * (head[1] as int) + head[2] == n
            else |head| == 5 && head[0] == 0x5a
                 && 0x100_0000 * (head[1] as int) + 0x1_0000 * (head[2] as int) + 0x100 * (head[3] as int) + head[4] == n
  {
    var width := LengthWidth(n);
    if width > 0 {
      EightByteLengths();
      assert Pow256(1) == 0x100 && Pow256(2) == 0x1_0000 && Pow256(4) == 0x1_0000_0000;
      HeadEndsWithLength(n);
      BigEndianRoundTrip(n, width);
      FewDigits(BigEndian(n, width));
    }
    hide BigEndian, FromBigEndian, Pow256;
  }

  lemma FewDigits(bytes: seq<Byte>)
    ensures |bytes| == 1 ==> FromBigEndian(bytes) == bytes[0]
    ensures |bytes| == 2 ==> FromBigEndian(bytes) == 0x100 * (bytes[0] as int) + bytes[1]
    ensures |bytes| == 4 ==>
              FromBigEndian(bytes) == 0x100_0000 * (bytes[0] as int) + 0x1_0000 * (bytes[1] as int) + 0x100 * (bytes[2] as int) + bytes[3]
  {
    if |bytes| == 1 {
      assert bytes[..0] == [];
    } else if |bytes| == 2 {
      assert bytes[..1][..0] == [];
      assert FromBigEndian(bytes[..1]) == bytes[0];
    } else if |bytes| == 4 {
      var three, two, one := bytes[..3], bytes[..2], bytes[..1];
      assert three[..2] == two && two[..1] == one && one[..0] == [];
      assert FromBigEndian(one) == bytes[0];
      assert FromBigEndian(two) == 0x100 * (bytes[0] as int) + bytes[1];
      assert FromBigEndian(three) == 0x1_0000 * (bytes[0] as int) + 0x100 * (bytes[1] as int) + bytes[2];
    }
  }

  /** The bytes of a plaintext: the array of four with the format 1, the state and the two byte strings. */
  lemma PlaintextLayout(scalar: Scalar)
    ensures var encoded, value := EncodeScalar(scalar), 3 + FieldLength(|scalar.value|);
            && encoded[..3] == [0x84, 1, scalar.state]
            && encoded[3..value - |scalar.value|] == Head(|scalar.value|)
            && encoded[value - |scalar.value|..value] == scalar.value
            && encoded[value..|encoded| - |scalar.padding|] == Head(|scalar.padding|)
            && encoded[|encoded| - |scalar.padding|..] == scalar.padding
  {
    hide Head;
  }

  // ---------- what a user gets back ----------

  /** A stored scalar: nothing, or a text. */
  datatype Stored = Nothing | Text(bytes: seq<Byte>)

  /** Reading a decrypted plaintext; None stands for an exception. */
  function ReadPlaintext(input: seq<Byte>): Option<Stored> {
    if |input| !in PADDING_BUCKETS then None
    else
      var decoded := DecodeScalar(input);
      if decoded.Malformed? then None
      else if decoded.scalar.state == 0 then (if decoded.scalar.value == [] then Some(Nothing) else None)
      else if decoded.scalar.state == 1 then Some(Text(decoded.scalar.value))
      else None
  }

  /** Whatever is stored is read back, and an empty text is not nothing. */
  method StoreAndRead(stored: Stored, randomBytes: RandomSource) returns (result: Padded)
    ensures result.Padded? ==> ReadPlaintext(result.bytes) == Some(stored)
  {
    var attempts: nat;
    if stored.Nothing? {
      result, attempts := PaddedPlaintext(0, [], randomBytes);
    } else {
      result, attempts := PaddedPlaintext(1, stored.bytes, randomBytes);
    }
  }

  /** The bucket is the smallest that holds the value with an empty padding. */
  lemma BucketIsSmallest(valueLength: nat)
    ensures var bucket := BucketFor(valueLength);
            && (bucket != 0 ==> bucket in PADDING_BUCKETS && 4 + FieldLength(valueLength) <= bucket)
            && (forall smaller | smaller in PADDING_BUCKETS && 4 + FieldLength(valueLength) <= smaller ::
                  bucket != 0 && bucket <= smaller)
  {
    BucketByLength(valueLength);
  }

  // ---------- what a user can store ----------

  /** Value lengths the loop cannot pad although a bucket is large enough. */
  const UNPADDABLE: set<nat> := {
    226, 760, 993, 3832, 4065, 16120, 16353, 65272, 65505,
    196596, 196597, 261878, 262111, 983028, 983029, 1048310, 1048543
  }

  lemma BucketByLength(valueLength: nat)
    ensures BucketFor(valueLength) ==
              var length := 4 + FieldLength(valueLength);
              if length <= 256 then 256 else if length <= 1024 then 1024 else if length <= 4096 then 4096
              else if length <= 16384 then 16384 else if length <= 65536 then 65536
              else if length <= 262144 then 262144 else if length <= 1048576 then 1048576 else 0
  {
    var length := 4 + FieldLength(valueLength);
    assert BucketFrom(7, valueLength) == 0;
    assert BucketFrom(6, valueLength) == if length <= 1048576 then 1048576 else 0;
    assert BucketFrom(5, valueLength) == if length <= 262144 then 262144 else BucketFrom(6, valueLength);
    assert BucketFrom(4, valueLength) == if length <= 65536 then 65536 else BucketFrom(5, valueLength);
    assert BucketFrom(3, valueLength) == if length <= 16384 then 16384 else BucketFrom(4, valueLength);
    assert BucketFrom(2, valueLength) == if length <= 4096 then 4096 else BucketFrom(3, valueLength);
    assert BucketFrom(1, valueLength) == if length <= 1024 then 1024 else BucketFrom(2, valueLength);
  }

  /** Without a source of its own the caller gets the browser's, which refuses to fill more than this many bytes
      at once (getRandomValues of the Web Cryptography API). */
  const RANDOM_QUOTA: nat := 65536

  ghost predicate IsBrowserSource(randomBytes: RandomSource) {
    forall length: nat ::
      if length <= RANDOM_QUOTA then randomBytes(length).Some? && |randomBytes(length).value| == length
      else randomBytes(length) == None
  }

  /** Value lengths so far below their bucket that the padding exceeds the quota. */
  predicate ExceedsQuota(valueLength: nat) {
    65530 <= valueLength <= 196594 || 262136 <= valueLength <= 983026
  }

  /** Which lengths fit a bucket, which of them leave a gap, and which need more padding than the browser gives. */
  lemma UnpaddableLengths(valueLength: nat)
    ensures BucketFor(valueLength) != 0 <==> valueLength <= 1048567
    ensures valueLength <= 1048567 ==> (Room(valueLength) in GAPS <==> valueLength in UNPADDABLE)
    ensures valueLength <= 1048567 && Room(valueLength) !in GAPS ==>
              (PaddingFor(Room(valueLength)) > RANDOM_QUOTA <==> ExceedsQuota(valueLength))
  {
    BucketByLength(valueLength);
  }

  /** Which values the user can store at all. */
  lemma StorableExactly(state: Byte, value: seq<Byte>, randomBytes: RandomSource)
    requires IsBrowserSource(randomBytes)
    ensures var result := PaddedWith(state, value, randomBytes);
            && (result.Padded? <==> |value| <= 1048567 && |value| !in UNPADDABLE && !ExceedsQuota(|value|))
            && (result == TooLarge <==> |value| > 1048567)
            && (result == Invalid <==> |value| in UNPADDABLE)
            && (result == SourceFailed <==> ExceedsQuota(|value|))
  {
    UnpaddableLengths(|value|);
    hide BucketFor, PaddingFor, EncodeScalar;
  }

  /** A value of 100000 bytes has a bucket and no gap, and still cannot be stored. */
  lemma LargeValueFails(state: Byte, value: seq<Byte>, randomBytes: RandomSource)
    requires |value| == 100_000 && IsBrowserSource(randomBytes)
    ensures BucketFor(|value|) == 262144 && Room(|value|) !in GAPS && PaddingFor(Room(|value|)) == 162131
    ensures PaddedWith(state, value, randomBytes) == SourceFailed
  {
    BucketByLength(|value|);
  }
}
