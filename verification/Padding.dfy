/** Padding messages to bucket sizes, and cover traffic. */
module Padding {
  import opened Crypto

  const MIN_BUCKET: nat := 256
  const MAX_BUCKET: nat := 65536
  const PAD_LEN_BYTES: nat := 4

  // ---- bucket sizes ----

  /** The least power of two that is at least `n`, searched from `p` up. */
  function PowerFrom(p: nat, n: nat): nat
    requires p > 0
    decreases if p < n then n - p else 0
  {
    if p >= n then p else PowerFrom(2 * p, n)
  }

  function NextPowerOfTwo(n: nat): nat {
    PowerFrom(1, n)
  }

  function BucketSize(len: nat): nat {
    var needed := len + PAD_LEN_BYTES;
    if needed <= MIN_BUCKET then MIN_BUCKET
    else if needed <= MAX_BUCKET then NextPowerOfTwo(needed)
    else (needed + MAX_BUCKET - 1) / MAX_BUCKET * MAX_BUCKET
  }

  /** The sizes on the wire: powers of two from 256 to 65536, then multiples of 65536. */
  predicate IsBucket(b: nat) {
    b in {256, 512, 1024, 2048, 4096, 8192, 16384, 32768} || (b > 0 && b % MAX_BUCKET == 0)
  }

  lemma PowerOfTwoBucket(n: nat)
    requires MIN_BUCKET < n <= MAX_BUCKET
    ensures IsBucket(NextPowerOfTwo(n)) && n <= NextPowerOfTwo(n) <= MAX_BUCKET
    ensures forall b: nat :: IsBucket(b) && b >= n ==> NextPowerOfTwo(n) <= b
  {
    assert PowerFrom(1, n) == PowerFrom(16, n) == PowerFrom(256, n) by {
      assert PowerFrom(1, n) == PowerFrom(2, n) == PowerFrom(4, n) == PowerFrom(8, n) == PowerFrom(16, n);
      assert PowerFrom(16, n) == PowerFrom(32, n) == PowerFrom(64, n) == PowerFrom(128, n) == PowerFrom(256, n);
    }
    assert PowerFrom(256, n) == PowerFrom(512, n);
    if n > 512 { assert PowerFrom(512, n) == PowerFrom(1024, n); }
    if n > 1024 { assert PowerFrom(1024, n) == PowerFrom(2048, n); }
    if n > 2048 { assert PowerFrom(2048, n) == PowerFrom(4096, n); }
    if n > 4096 { assert PowerFrom(4096, n) == PowerFrom(8192, n); }
    if n > 8192 { assert PowerFrom(8192, n) == PowerFrom(16384, n); }
    if n > 16384 { assert PowerFrom(16384, n) == PowerFrom(32768, n); }
    if n > 32768 { assert PowerFrom(32768, n) == PowerFrom(65536, n); }
  }

  lemma RoundedUp(n: nat)
    requires n > 0
    ensures var r := (n + MAX_BUCKET - 1) / MAX_BUCKET * MAX_BUCKET;
            n <= r < n + MAX_BUCKET && r % MAX_BUCKET == 0
            && forall b: nat :: b % MAX_BUCKET == 0 && b >= n ==> r <= b
  {
    var q := (n + MAX_BUCKET - 1) / MAX_BUCKET;
    assert MAX_BUCKET == 65536;
    forall b: nat | b % MAX_BUCKET == 0 && b >= n
      ensures q * MAX_BUCKET <= b
    {
      assert b == b / 65536 * 65536;
    }
  }

  /** The bucket is the least size on the wire with room for the message and the length suffix. */
  lemma BucketIsLeast(len: nat)
    ensures IsBucket(BucketSize(len)) && BucketSize(len) >= len + PAD_LEN_BYTES
    ensures forall b: nat :: IsBucket(b) && b >= len + PAD_LEN_BYTES ==> BucketSize(len) <= b
  {
    var needed := len + PAD_LEN_BYTES;
    if MIN_BUCKET < needed <= MAX_BUCKET {
      PowerOfTwoBucket(needed);
    } else if needed > MAX_BUCKET {
      RoundedUp(needed);
    }
  }

  lemma BucketMonotone(len: nat, len': nat)
    requires len <= len'
    ensures BucketSize(len) <= BucketSize(len')
  {
    BucketIsLeast(len);
    BucketIsLeast(len');
  }

  /** A message that exactly fills a bucket stays in it. */
  lemma BucketStable(len: nat)
    ensures BucketSize(len) >= PAD_LEN_BYTES && BucketSize(BucketSize(len) - PAD_LEN_BYTES) == BucketSize(len)
  {
    BucketIsLeast(len);
    BucketIsLeast(BucketSize(len) - PAD_LEN_BYTES);
  }

  /** The padding always has room for its own length, and that length always fits a u32. */
  lemma PadLengthBounds(len: nat)
    ensures PAD_LEN_BYTES <= BucketSize(len) - len <= 65539
  {
    BucketIsLeast(len);
    if len + PAD_LEN_BYTES > MAX_BUCKET {
      RoundedUp(len + PAD_LEN_BYTES);
    } else if len + PAD_LEN_BYTES > MIN_BUCKET {
      PowerOfTwoBucket(len + PAD_LEN_BYTES);
    }
  }

  // ---- the length suffix ----

  function ToLeBytes(n: u32): (b: seq<byte>)
    ensures |b| == 4
  {
    [(n % 256) as byte, (n / 256 % 256) as byte, (n / 65536 % 256) as byte, (n / 16777216) as byte]
  }

  function FromLeBytes(b: seq<byte>): u32
    requires |b| == 4
  {
    b[0] as int + 256 * b[1] as int + 65536 * b[2] as int + 16777216 * b[3] as int
  }

  lemma LeRoundTrip(n: u32)
    ensures FromLeBytes(ToLeBytes(n)) == n
  {
    assert n / 65536 == n / 256 / 256 && n / 16777216 == n / 65536 / 256;
  }

  /** The lowest digit and the rest are determined by the number. */
  lemma LowDigit(x: int, q: int, y: int, r: int)
    requires 0 <= x < 256 && 0 <= y < 256 && x + 256 * q == y + 256 * r
    ensures x == y && q == r
  {
  }

  lemma LeInjective(b: seq<byte>, c: seq<byte>)
    requires |b| == 4 && |c| == 4 && FromLeBytes(b) == FromLeBytes(c)
    ensures b == c
  {
    var b0, b1, b2, b3 := b[0] as int, b[1] as int, b[2] as int, b[3] as int;
    var c0, c1, c2, c3 := c[0] as int, c[1] as int, c[2] as int, c[3] as int;
    LowDigit(b0, b1 + 256 * (b2 + 256 * b3), c0, c1 + 256 * (c2 + 256 * c3));
    LowDigit(b1, b2 + 256 * b3, c1, c2 + 256 * c3);
    LowDigit(b2, b3, c2, c3);
    assert b == [b[0], b[1], b[2], b[3]] && c == [c[0], c[1], c[2], c[3]];
  }

  function Suffix(b: seq<byte>): seq<byte>
    requires |b| >= PAD_LEN_BYTES
  {
    b[|b| - PAD_LEN_BYTES..]
  }

  // ---- padding and unpadding ----

  /** The random bytes a call draws, by position. */
  type Random = nat -> byte

  function Drawn(random: Random, n: nat): (b: seq<byte>)
    ensures |b| == n && forall i :: 0 <= i < n ==> b[i] == random(i)
  {
    seq(n, i requires 0 <= i < n => random(i))
  }

  lemma DrawnPrefix(random: Random, m: nat, n: nat)
    requires m <= n
    ensures Drawn(random, n)[..m] == Drawn(random, m)
  {
  }

  function Padded(m: seq<byte>, fill: seq<byte>): seq<byte>
    requires |m| + |fill| == BucketSize(|m|) - PAD_LEN_BYTES
  {
    PadLengthBounds(|m|);
    m + fill + ToLeBytes(BucketSize(|m|) - |m|)
  }

  /** Padded with as many random bytes as there is room for. */
  function PaddedRandomly(m: seq<byte>, random: Random): seq<byte> {
    PadLengthBounds(|m|);
    Padded(m, Drawn(random, BucketSize(|m|) - |m| - PAD_LEN_BYTES))
  }

  method PadMessage(m: seq<byte>, random: Random) returns (r: Result<seq<byte>>)
    ensures r == Success(PaddedRandomly(m, random))
  {
    PadLengthBounds(|m|);
    var target := BucketSize(|m|);
    var padLen := target - |m|;
    var padded := m;
    var fillLen := padLen - PAD_LEN_BYTES;
    var fill := Drawn(random, fillLen);
    if fillLen > 0 {
      padded := padded + fill;
    }
    padded := padded + ToLeBytes(padLen);
    assert m + fill + ToLeBytes(padLen) == padded;
    return Success(padded);
  }

  function Unpadded(b: seq<byte>): Result<seq<byte>> {
    if |b| < PAD_LEN_BYTES then Failure(PaddingError)
    else
      var padLen := FromLeBytes(Suffix(b));
      if padLen < PAD_LEN_BYTES || padLen > |b| then Failure(PaddingError)
      else Success(b[..|b| - padLen])
  }

  /** Unpadding undoes padding, for every message and every fill. */
  lemma PadRoundTrip(m: seq<byte>, fill: seq<byte>)
    requires |m| + |fill| == BucketSize(|m|) - PAD_LEN_BYTES
    ensures Unpadded(Padded(m, fill)) == Success(m)
    ensures |Padded(m, fill)| == BucketSize(|m|)
  {
    PadLengthBounds(|m|);
    var padLen := BucketSize(|m|) - |m|;
    LeRoundTrip(padLen);
    assert Suffix(Padded(m, fill)) == ToLeBytes(padLen);
    assert Padded(m, fill)[..|m|] == m;
  }

  /** Byte by byte: the message, then random bytes up to the suffix. */
  lemma PaddedBytewise(m: seq<byte>, random: Random, i: nat)
    requires i < BucketSize(|m|) - PAD_LEN_BYTES
    ensures |PaddedRandomly(m, random)| == BucketSize(|m|)
    ensures PaddedRandomly(m, random)[i] == if i < |m| then m[i] else random(i - |m|)
  {
    PadLengthBounds(|m|);
    PadRoundTrip(m, Drawn(random, BucketSize(|m|) - |m| - PAD_LEN_BYTES));
  }

  lemma RandomRoundTrip(m: seq<byte>, random: Random)
    ensures Unpadded(PaddedRandomly(m, random)) == Success(m)
    ensures |PaddedRandomly(m, random)| == BucketSize(|m|)
  {
    PadLengthBounds(|m|);
    PadRoundTrip(m, Drawn(random, BucketSize(|m|) - |m| - PAD_LEN_BYTES));
  }

  /** A message, some filler, and the length of filler and suffix. */
  function Shaped(m: seq<byte>, fill: seq<byte>): seq<byte>
    requires |fill| + PAD_LEN_BYTES <= U32_MAX
  {
    m + fill + ToLeBytes(|fill| + PAD_LEN_BYTES)
  }

  lemma ShapedUnpads(m: seq<byte>, fill: seq<byte>)
    requires |fill| + PAD_LEN_BYTES <= U32_MAX
    ensures Unpadded(Shaped(m, fill)) == Success(m)
  {
    LeRoundTrip(|fill| + PAD_LEN_BYTES);
    assert Suffix(Shaped(m, fill)) == ToLeBytes(|fill| + PAD_LEN_BYTES);
    assert Shaped(m, fill)[..|m|] == m;
  }

  lemma UnpadFill(b: seq<byte>) returns (fill: seq<byte>)
    requires Unpadded(b).Success?
    ensures |fill| + PAD_LEN_BYTES <= U32_MAX && b == Shaped(Unpadded(b).value, fill)
  {
    var m, n := Unpadded(b).value, FromLeBytes(Suffix(b));
    fill := b[|m|..|b| - PAD_LEN_BYTES];
    LeRoundTrip(n);
    LeInjective(Suffix(b), ToLeBytes(n));
    assert b == m + fill + Suffix(b);
  }

  /** Unpadding reads a message off exactly the buffers of that shape. */
  lemma UnpadShape(b: seq<byte>, m: seq<byte>)
    ensures Unpadded(b) == Success(m) <==> exists fill :: |fill| + PAD_LEN_BYTES <= U32_MAX && b == Shaped(m, fill)
  {
    if Unpadded(b) == Success(m) {
      var fill := UnpadFill(b);
    }
    forall fill | |fill| + PAD_LEN_BYTES <= U32_MAX && b == Shaped(m, fill)
      ensures Unpadded(b) == Success(m)
    {
      ShapedUnpads(m, fill);
    }
  }

  /** An accepted buffer is a padding of its message exactly when it has bucket size. */
  lemma UnpadPad(b: seq<byte>)
    requires Unpadded(b).Success?
    ensures var m := Unpadded(b).value;
            |b| == BucketSize(|m|) <==>
            exists fill :: |m| + |fill| == BucketSize(|m|) - PAD_LEN_BYTES && Padded(m, fill) == b
  {
    var m := Unpadded(b).value;
    if |b| == BucketSize(|m|) {
      var fill := UnpadFill(b);
      assert Padded(m, fill) == b;
    }
    forall fill | |m| + |fill| == BucketSize(|m|) - PAD_LEN_BYTES && Padded(m, fill) == b
      ensures |b| == BucketSize(|m|)
    {
      PadRoundTrip(m, fill);
    }
  }

  // ---- cover traffic ----

  const DUMMY_MARK: seq<byte> := [0xFF, 0xFF, 0xFF, 0xFF]

  /** A dummy of the given size is random up to its mark. */
  predicate IsDummyOf(b: seq<byte>, size: nat, random: Random) {
    var actual := if size < MIN_BUCKET then MIN_BUCKET else size;
    |b| == actual && b == Drawn(random, actual - PAD_LEN_BYTES) + DUMMY_MARK
  }

  method GenerateDummyMessage(size: nat, random: Random) returns (b: seq<byte>)
    ensures IsDummyOf(b, size, random)
  {
    var actual := if size < MIN_BUCKET then MIN_BUCKET else size;
    var bytes := Drawn(random, actual);
    var buf := new byte[actual](i requires 0 <= i < actual => bytes[i]);
    var mark := actual - PAD_LEN_BYTES;
    buf[mark] := 0xFF;
    buf[mark + 1] := 0xFF;
    buf[mark + 2] := 0xFF;
    buf[mark + 3] := 0xFF;
    b := buf[..];
    DrawnPrefix(random, mark, actual);
    assert b == bytes[..mark] + DUMMY_MARK;
  }

  predicate IsDummyMessage(data: seq<byte>) {
    if |data| < PAD_LEN_BYTES then false
    else
      var offset := |data| - PAD_LEN_BYTES;
      data[offset] == 0xFF && data[offset + 1] == 0xFF && data[offset + 2] == 0xFF && data[offset + 3] == 0xFF
  }

  /** The mark is the encoding of u32::MAX, which no padding length is. */
  lemma DummyMark(data: seq<byte>)
    ensures IsDummyMessage(data) <==> |data| >= PAD_LEN_BYTES && FromLeBytes(Suffix(data)) == U32_MAX
  {
    assert FromLeBytes(DUMMY_MARK) == U32_MAX;
    if |data| >= PAD_LEN_BYTES {
      if FromLeBytes(Suffix(data)) == U32_MAX {
        LeInjective(Suffix(data), DUMMY_MARK);
      }
      assert IsDummyMessage(data) <==> Suffix(data) == DUMMY_MARK;
    }
  }

  /** No real message looks like cover traffic. */
  lemma RealIsNotDummy(m: seq<byte>, fill: seq<byte>)
    requires |m| + |fill| == BucketSize(|m|) - PAD_LEN_BYTES
    ensures !IsDummyMessage(Padded(m, fill))
  {
    PadLengthBounds(|m|);
    PadRoundTrip(m, fill);
    DummyMark(Padded(m, fill));
    LeRoundTrip(BucketSize(|m|) - |m|);
    assert Suffix(Padded(m, fill)) == ToLeBytes(BucketSize(|m|) - |m|);
  }

  /** A dummy has the size asked for, but at least that of the smallest bucket, and is random up to its mark. */
  lemma DummyBytewise(b: seq<byte>, size: nat, random: Random, i: nat)
    requires IsDummyOf(b, size, random) && i < |b|
    ensures |b| == (if size < 256 then 256 else size)
    ensures b[i] == if i < |b| - 4 then random(i) else 0xFF
  {
  }

  /** Every dummy is recognised, and is not a padded message unless it is 2^32 - 1 bytes long or more. */
  lemma DummyIsDummy(b: seq<byte>, size: nat, random: Random)
    requires IsDummyOf(b, size, random)
    ensures IsDummyMessage(b) && |b| >= MIN_BUCKET
    ensures Unpadded(b).Failure? <==> |b| < U32_MAX
  {
    assert Suffix(b) == DUMMY_MARK;
    DummyMark(b);
  }
}
