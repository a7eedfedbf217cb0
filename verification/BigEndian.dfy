/** Unsigned integers as bytes, most significant first, as the codecs and the TCP length prefix write them. */
module BigEndian {

  type Byte = x: int | 0 <= x < 256

  function Pow256(width: nat): (p: nat)
    ensures p > 0
  {
    if width == 0 then 1 else 256 * Pow256(width - 1)
  }

  /** The byte of n that stands `place` places from the right. */
  function Digit(n: nat, place: nat): Byte {
    if place == 0 then n % 256 else Digit(n / 256, place - 1)
  }

  function ToBytes(n: nat, width: nat): (b: seq<Byte>)
    ensures |b| == width
  {
    seq(width, i requires 0 <= i < width => Digit(n, width - 1 - i))
  }

  function FromBytes(b: seq<Byte>): nat {
    if b == [] then 0 else 256 * FromBytes(b[..|b| - 1]) + b[|b| - 1]
  }

  lemma LastDigit(n: nat, width: nat)
    requires width > 0
    ensures ToBytes(n, width) == ToBytes(n / 256, width - 1) + [n % 256]
  {
    var whole, split := ToBytes(n, width), ToBytes(n / 256, width - 1) + [n % 256];
    forall i | 0 <= i < width ensures whole[i] == split[i] {
      assert i < width - 1 ==> Digit(n, width - 1 - i) == Digit(n / 256, width - 2 - i);
    }
    assert whole == split;
  }

  /** A value that fits is read back. */
  lemma {:induction false} ToFrom(n: nat, width: nat)
    requires n < Pow256(width)
    ensures FromBytes(ToBytes(n, width)) == n
  {
    if width > 0 {
      ToFrom(n / 256, width - 1);
      LastDigit(n, width);
      var b := ToBytes(n, width);
      assert b[..width - 1] == ToBytes(n / 256, width - 1);
    }
  }

  /** Bytes read are written again, and their value fits. */
  lemma {:induction false} FromTo(b: seq<Byte>)
    ensures FromBytes(b) < Pow256(|b|) && ToBytes(FromBytes(b), |b|) == b
  {
    if b != [] {
      FromTo(b[..|b| - 1]);
      LastDigit(FromBytes(b), |b|);
      assert b == b[..|b| - 1] + [b[|b| - 1]];
    }
  }

  function Value(b: Byte): nat {
    b
  }

  lemma Shifted(high: nat, p: nat, rest: nat, low: nat)
    ensures 256 * (high * p + rest) + low == high * (256 * p) + (256 * rest + low)
  {
  }

  /** The first byte is the most significant. */
  lemma {:induction false} HighByteFirst(b: seq<Byte>)
    requires b != []
    ensures FromBytes(b) == Value(b[0]) * Pow256(|b| - 1) + FromBytes(b[1..])
  {
    if |b| > 1 {
      var n := |b| - 1;
      HighByteFirst(b[..n]);
      assert b[..n][1..] == b[1..][..n - 1] && b[1..][n - 1] == b[n];
      Shifted(Value(b[0]), Pow256(n - 1), FromBytes(b[1..][..n - 1]), Value(b[n]));
    }
  }

  /** Writes bytes into a buffer at an offset, and nothing else. */
  method PutBytes(target: array<Byte>, at: nat, source: seq<Byte>)
    requires at + |source| <= target.Length
    modifies target
    ensures target[..at + |source|] == old(target[..at]) + source
    ensures target[at + |source|..] == old(target[at + |source|..])
  {
    forall i | 0 <= i < |source| {
      target[at + i] := source[i];
    }
  }

  lemma Regroup<T>(a: seq<T>, b: seq<T>, c: seq<T>)
    ensures a + (b + c) == (a + b) + c
  {
  }

  lemma PartOfRest<T>(s: seq<T>, start: nat, i: nat, j: nat)
    requires i <= j && start + j <= |s|
    ensures s[start..][i..j] == s[start + i..start + j] && s[start..][j..] == s[start + j..]
  {
  }

  lemma PartOfFront<T>(s: seq<T>, end: nat, i: nat, j: nat)
    requires i <= j <= end <= |s|
    ensures s[..end][i..j] == s[i..j]
  {
  }

  lemma Widths()
    ensures Pow256(1) == 0x100 && Pow256(2) == 0x1_0000 && Pow256(4) == 0x1_0000_0000
    ensures Pow256(8) == 0x1_0000_0000_0000_0000
  {
    assert Pow256(3) == 256 * Pow256(2);
    assert Pow256(6) == 256 * Pow256(5);
  }
}
