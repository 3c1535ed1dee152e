/** The number two users compare to verify each other's identity keys. */
module SafetyNumber {
  import opened Crypto
  import opened Text

  const NUM_GROUPS: nat := 12

  type Digest = d: seq<byte> | |d| == 32 witness seq(32, i => 0 as byte)

  /** SHA-256: some function to 32 bytes. */
  type Hash = seq<byte> -> Digest

  /** The order of byte slices. */
  predicate LexLeq(a: seq<byte>, b: seq<byte>) {
    a == [] || (b != [] && (a[0] < b[0] || (a[0] == b[0] && LexLeq(a[1..], b[1..]))))
  }

  lemma {:induction false} LexTotalOrder(a: seq<byte>, b: seq<byte>)
    ensures LexLeq(a, b) || LexLeq(b, a)
    ensures LexLeq(a, b) && LexLeq(b, a) ==> a == b
  {
    if a != [] && b != [] {
      LexTotalOrder(a[1..], b[1..]);
      assert a == [a[0]] + a[1..] && b == [b[0]] + b[1..];
    }
  }

  /** Byte by byte up to the first difference, a prefix before what it begins. */
  lemma {:induction false} LexExact(a: seq<byte>, b: seq<byte>)
    ensures LexLeq(a, b) <==> a <= b || exists k: nat :: DiffersAt(a, b, k) && a[k] < b[k]
  {
    if a != [] && b != [] {
      LexExact(a[1..], b[1..]);
      if a[0] == b[0] {
        assert a <= b <==> a[1..] <= b[1..];
        forall k: nat | DiffersAt(a[1..], b[1..], k)
          ensures DiffersAt(a, b, k + 1)
        {
          assert a[..k + 1] == [a[0]] + a[1..][..k] && b[..k + 1] == [b[0]] + b[1..][..k];
        }
        forall k: nat | DiffersAt(a, b, k)
          ensures k > 0 && DiffersAt(a[1..], b[1..], k - 1)
        {
          assert a[1..][..k - 1] == a[..k][1..] && b[1..][..k - 1] == b[..k][1..];
        }
      } else {
        assert DiffersAt(a, b, 0);
      }
    }
  }

  predicate DiffersAt(a: seq<byte>, b: seq<byte>, k: nat) {
    k < |a| && k < |b| && a[..k] == b[..k] && a[k] != b[k]
  }

  function Preimage(ours: seq<byte>, theirs: seq<byte>): seq<byte> {
    if LexLeq(ours, theirs) then ours + theirs else theirs + ours
  }

  /** A number below 100000 as five digits. */
  function FiveDigits(n: nat): (s: string)
    requires n < 100000
    ensures |s| == 5
  {
    [Digit(n / 10000), Digit(n / 1000 % 10), Digit(n / 100 % 10), Digit(n / 10 % 10), Digit(n % 10)]
  }

  /** A big-endian u16 of the hash. */
  function GroupValue(hash: seq<byte>, i: nat): nat
    requires |hash| == 32 && i < NUM_GROUPS
  {
    256 * hash[2 * i] as int + hash[2 * i + 1] as int
  }

  function Group(hash: seq<byte>, i: nat): (s: string)
    requires |hash| == 32 && i < NUM_GROUPS
    ensures |s| == 5
  {
    FiveDigits(GroupValue(hash, i) % 100000)
  }

  function Groups(hash: seq<byte>): seq<string>
    requires |hash| == 32
  {
    seq(NUM_GROUPS, i requires 0 <= i < NUM_GROUPS => Group(hash, i))
  }

  /** The words with spaces between them. */
  function Join(words: seq<string>): string {
    if words == [] then ""
    else if |words| == 1 then words[0]
    else Join(words[..|words| - 1]) + " " + words[|words| - 1]
  }

  function Generate(ours: seq<byte>, theirs: seq<byte>, sha256: Hash): string {
    Join(Groups(sha256(Preimage(ours, theirs))))
  }

  function GenerateFromHex(ours: string, theirs: string, sha256: Hash): Result<string> {
    match (HexDecode(ours), HexDecode(theirs))
    case (Some(a), Some(b)) =>
      if |a| != 32 || |b| != 32 then Failure(InvalidKeyLength) else Success(Generate(a, b, sha256))
    case _ => Failure(InvalidKeyLength)
  }

  /** Both users compute the same number, for keys of any length. */
  lemma Symmetric(a: seq<byte>, b: seq<byte>, sha256: Hash)
    ensures Generate(a, b, sha256) == Generate(b, a, sha256)
  {
    LexTotalOrder(a, b);
  }

  /** The key that is hashed first. */
  function First(a: seq<byte>, b: seq<byte>): seq<byte> {
    if LexLeq(a, b) then a else b
  }

  predicate SamePair(a: seq<byte>, b: seq<byte>, c: seq<byte>, d: seq<byte>) {
    (a == c && b == d) || (a == d && b == c)
  }

  /** The hashed bytes do not say where the first key ends: together with its length they stand for the unordered
      pair, and for nothing else. */
  lemma PreimageExact(a: seq<byte>, b: seq<byte>, c: seq<byte>, d: seq<byte>)
    ensures Preimage(a, b) == Preimage(c, d) && |First(a, b)| == |First(c, d)| <==> SamePair(a, b, c, d)
  {
    LexTotalOrder(a, b);
    LexTotalOrder(c, d);
    var p, q, n := Preimage(a, b), Preimage(c, d), |First(a, b)|;
    assert p[..n] == First(a, b) && p == First(a, b) + p[n..];
    if n == |First(c, d)| {
      assert q[..n] == First(c, d) && q == First(c, d) + q[n..];
    }
  }

  /** For equally long keys, as 32-byte keys are, they stand for the pair on their own. */
  lemma PreimageOfEqualLengths(a: seq<byte>, b: seq<byte>, c: seq<byte>, d: seq<byte>)
    requires |a| == |b| && |c| == |d|
    ensures Preimage(a, b) == Preimage(c, d) <==> SamePair(a, b, c, d)
  {
    PreimageExact(a, b, c, d);
  }

  /** The bytes are in order as two keys, the first of length `k`. */
  predicate Splits(p: seq<byte>, k: nat) {
    k <= |p| && LexLeq(p[..k], p[k..])
  }

  /** Another pair has the same hashed bytes exactly when these can be split in order at another place. */
  lemma PreimageShared(a: seq<byte>, b: seq<byte>)
    ensures (exists c, d :: Preimage(c, d) == Preimage(a, b) && !SamePair(a, b, c, d))
       <==> exists k :: Splits(Preimage(a, b), k) && k != |First(a, b)|
  {
    var p := Preimage(a, b);
    forall c, d | Preimage(c, d) == p && !SamePair(a, b, c, d)
      ensures Splits(p, |First(c, d)|) && |First(c, d)| != |First(a, b)|
    {
      LexTotalOrder(c, d);
      PreimageExact(a, b, c, d);
      assert p[..|First(c, d)|] == First(c, d);
      assert p[|First(c, d)|..] == if LexLeq(c, d) then d else c;
    }
    forall k: nat | Splits(p, k) && k != |First(a, b)|
      ensures Preimage(p[..k], p[k..]) == p && !SamePair(a, b, p[..k], p[k..])
    {
      assert p == p[..k] + p[k..];
      PreimageExact(a, b, p[..k], p[k..]);
    }
  }

  /** Two keys that are not empty always share their number with another pair, an empty key and both in a row.
      Only the hex entry point rules that out. */
  lemma PreimageAmbiguous(a: seq<byte>, b: seq<byte>, sha256: Hash)
    requires a != [] && b != []
    ensures !SamePair(a, b, [], Preimage(a, b)) && Preimage([], Preimage(a, b)) == Preimage(a, b)
    ensures Generate([], Preimage(a, b), sha256) == Generate(a, b, sha256)
  {
    PreimageWithEmpty(Preimage(a, b));
    SameNumber([], Preimage(a, b), a, b, sha256);
  }

  lemma PreimageWithEmpty(b: seq<byte>)
    ensures Preimage([], b) == b
  {
  }

  lemma SameNumber(a: seq<byte>, b: seq<byte>, c: seq<byte>, d: seq<byte>, sha256: Hash)
    requires Preimage(a, b) == Preimage(c, d)
    ensures Generate(a, b, sha256) == Generate(c, d, sha256)
  {
  }

  lemma FiveDigitsInjective(m: nat, n: nat)
    requires m < 100000 && n < 100000 && FiveDigits(m) == FiveDigits(n)
    ensures m == n
  {
    var x, y := FiveDigits(m), FiveDigits(n);
    assert x[0] == y[0] && x[1] == y[1] && x[2] == y[2] && x[3] == y[3] && x[4] == y[4];
    Recompose(m);
    Recompose(n);
  }

  lemma Recompose(n: nat)
    ensures n == 10000 * (n / 10000) + 1000 * (n / 1000 % 10) + 100 * (n / 100 % 10) + 10 * (n / 10 % 10) + n % 10
  {
    assert n / 100 == n / 10 / 10 && n / 1000 == n / 100 / 10 && n / 10000 == n / 1000 / 10;
  }

  lemma GroupInjective(g: seq<byte>, h: seq<byte>, i: nat)
    requires |g| == |h| == 32 && i < NUM_GROUPS
    ensures Group(g, i) == Group(h, i) <==> GroupValue(g, i) == GroupValue(h, i)
  {
    assert GroupValue(g, i) % 100000 == GroupValue(g, i) && GroupValue(h, i) % 100000 == GroupValue(h, i);
    if Group(g, i) == Group(h, i) {
      FiveDigitsInjective(GroupValue(g, i), GroupValue(h, i));
    }
  }

  lemma AppendExact(x: string, u: string, y: string, v: string)
    requires |x| == |y| && |u| == |v|
    ensures x + " " + u == y + " " + v <==> x == y && u == v
  {
    var s, t := x + " " + u, y + " " + v;
    assert x == s[..|x|] && y == t[..|y|] && u == s[|x| + 1..] && v == t[|y| + 1..];
  }

  ghost predicate AllFive(words: seq<string>) {
    forall i :: 0 <= i < |words| ==> |words[i]| == 5
  }

  lemma {:induction false} JoinInjective(xs: seq<string>, ys: seq<string>)
    requires |xs| == |ys| && AllFive(xs) && AllFive(ys)
    ensures |Join(xs)| == |Join(ys)|
    ensures Join(xs) == Join(ys) <==> xs == ys
  {
    if |xs| > 1 {
      var k := |xs| - 1;
      JoinInjective(xs[..k], ys[..k]);
      AppendExact(Join(xs[..k]), xs[k], Join(ys[..k]), ys[k]);
      assert xs == xs[..k] + [xs[k]] && ys == ys[..k] + [ys[k]];
    }
  }

  /** What a group shows: five decimal digits of the two hash bytes, the first of them the high one. */
  lemma GroupShows(hash: seq<byte>, i: nat)
    requires |hash| == 32 && i < NUM_GROUPS
    ensures IsDigits(Group(hash, i)) && |Group(hash, i)| == 5
    ensures DecimalValue(Group(hash, i)) == 256 * hash[2 * i] as int + hash[2 * i + 1] as int
  {
    FiveDigitsValue(GroupValue(hash, i));
  }

  lemma FiveDigitsValue(n: nat)
    requires n < 65536
    ensures n % 100000 == n && IsDigits(FiveDigits(n)) && DecimalValue(FiveDigits(n)) == n
  {
    Recompose(n);
    DigitsValue(n / 10000, n / 1000 % 10, n / 100 % 10, n / 10 % 10, n % 10);
  }

  lemma DigitsValue(a: nat, b: nat, c: nat, d: nat, e: nat)
    requires a < 10 && b < 10 && c < 10 && d < 10 && e < 10
    ensures var s := [Digit(a), Digit(b), Digit(c), Digit(d), Digit(e)];
            IsDigits(s) && DecimalValue(s) == 10000 * a + 1000 * b + 100 * c + 10 * d + e
  {
    ThreeDigits(a, b, c);
    var front := [Digit(a), Digit(b), Digit(c)];
    DecimalSnoc(front, d);
    DecimalSnoc(front + [Digit(d)], e);
    assert front + [Digit(d)] + [Digit(e)] == [Digit(a), Digit(b), Digit(c), Digit(d), Digit(e)];
  }

  lemma ThreeDigits(a: nat, b: nat, c: nat)
    requires a < 10 && b < 10 && c < 10
    ensures var s := [Digit(a), Digit(b), Digit(c)]; IsDigits(s) && DecimalValue(s) == 100 * a + 10 * b + c
  {
    var none: string := [];
    DecimalSnoc(none, a);
    DecimalSnoc(none + [Digit(a)], b);
    DecimalSnoc(none + [Digit(a)] + [Digit(b)], c);
    assert none + [Digit(a)] + [Digit(b)] + [Digit(c)] == [Digit(a), Digit(b), Digit(c)];
  }

  lemma {:induction false} JoinAt(words: seq<string>, i: nat)
    requires AllFive(words) && i < |words|
    ensures |Join(words)| == 6 * |words| - 1
    ensures Join(words)[6 * i..6 * i + 5] == words[i]
    ensures i + 1 < |words| ==> Join(words)[6 * i + 5] == ' '
    decreases |words|
  {
    var k := |words| - 1;
    if k > 0 {
      var front := Join(words[..k]);
      if i < k {
        JoinAt(words[..k], i);
        assert Join(words)[..|front|] == front;
      } else {
        JoinAt(words[..k], 0);
      }
    }
  }

  /** The number that is shown: twelve groups of five digits with a space between, each the value of its two bytes
      of the hash. */
  lemma NumberShows(a: seq<byte>, b: seq<byte>, sha256: Hash, i: nat)
    requires i < 12
    ensures var hash, number := sha256(Preimage(a, b)), Generate(a, b, sha256);
            && |number| == 71
            && (var group := number[6 * i..6 * i + 5];
                IsDigits(group) && DecimalValue(group) == 256 * hash[2 * i] as int + hash[2 * i + 1] as int)
            && (i < 11 ==> number[6 * i + 5] == ' ')
  {
    var hash := sha256(Preimage(a, b));
    JoinAt(Groups(hash), i);
    GroupShows(hash, i);
  }

  lemma GroupBytes(g: seq<byte>, h: seq<byte>, i: nat)
    requires |g| == |h| == 32 && i < NUM_GROUPS
    ensures Group(g, i) == Group(h, i) <==> g[2 * i] == h[2 * i] && g[2 * i + 1] == h[2 * i + 1]
  {
    GroupInjective(g, h, i);
  }

  lemma GroupsDetermine(g: seq<byte>, h: seq<byte>)
    requires |g| == |h| == 32 && Groups(g) == Groups(h)
    ensures g[..24] == h[..24]
  {
    forall k | 0 <= k < 24
      ensures g[k] == h[k]
    {
      var i := k / 2;
      assert Groups(g)[i] == Groups(h)[i];
      GroupBytes(g, h, i);
      assert k == 2 * i || k == 2 * i + 1;
    }
  }

  lemma GroupsDetermined(g: seq<byte>, h: seq<byte>)
    requires |g| == |h| == 32 && g[..24] == h[..24]
    ensures Groups(g) == Groups(h)
  {
    forall i | 0 <= i < NUM_GROUPS
      ensures Group(g, i) == Group(h, i)
    {
      assert g[..24][2 * i] == h[..24][2 * i] && g[..24][2 * i + 1] == h[..24][2 * i + 1];
      GroupBytes(g, h, i);
    }
  }

  lemma GroupsInjective(g: seq<byte>, h: seq<byte>)
    requires |g| == |h| == 32
    ensures Groups(g) == Groups(h) <==> g[..24] == h[..24]
  {
    if Groups(g) == Groups(h) {
      GroupsDetermine(g, h);
    } else if g[..24] == h[..24] {
      GroupsDetermined(g, h);
    }
  }

  /** Two numbers are equal exactly when the first 24 hash bytes are: the reduction modulo 100000 loses nothing. */
  lemma NumberDeterminesHash(a: seq<byte>, b: seq<byte>, c: seq<byte>, d: seq<byte>, sha256: Hash)
    ensures Generate(a, b, sha256) == Generate(c, d, sha256)
       <==> sha256(Preimage(a, b))[..24] == sha256(Preimage(c, d))[..24]
  {
    JoinInjective(Groups(sha256(Preimage(a, b))), Groups(sha256(Preimage(c, d))));
    GroupsInjective(sha256(Preimage(a, b)), sha256(Preimage(c, d)));
  }

  /** Hex keys give the number of the raw keys. */
  lemma HexAgrees(a: seq<byte>, b: seq<byte>, sha256: Hash)
    requires |a| == |b| == 32
    ensures GenerateFromHex(HexEncode(a), HexEncode(b), sha256) == Success(Generate(a, b, sha256))
  {
    HexRoundTrip(a);
    HexRoundTrip(b);
  }

  predicate IsHexKey(s: string) {
    |s| == 64 && forall c :: c in s ==> IsHexDigit(c)
  }

  /** Only two keys of 64 hex digits give a number. */
  lemma HexAccepts(ours: string, theirs: string, sha256: Hash)
    ensures GenerateFromHex(ours, theirs, sha256).Success? <==> IsHexKey(ours) && IsHexKey(theirs)
    ensures GenerateFromHex(ours, theirs, sha256).Failure? ==>
              GenerateFromHex(ours, theirs, sha256).error == InvalidKeyLength
  {
    HexDecodes(ours);
    HexDecodes(theirs);
  }
}
