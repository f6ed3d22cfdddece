/**
 * Decoding of binary chunks: each sample is `bps / 8` bytes, little-endian,
 * two's complement (the reader's `nextInt<bps>LE` calls).
 */
module Pcm {

  type Byte = b: int | 0 <= b < 256

  function Pow256(k: nat): (r: nat)
    ensures r >= 1
    ensures k > 0 ==> r % 2 == 0
  {
    if k == 0 then 1 else 256 * Pow256(k - 1)
  }

  /** The unsigned value of little-endian bytes. */
  function Unsigned(b: seq<Byte>): (u: nat)
    ensures u < Pow256(|b|)
  {
    if b == [] then 0 else b[0] + 256 * Unsigned(b[1..])
  }

  /** The k little-endian bytes of u. */
  function UnsignedBytes(u: nat, k: nat): (b: seq<Byte>)
    requires u < Pow256(k)
    ensures |b| == k
  {
    if k == 0 then [] else [u % 256] + UnsignedBytes(u / 256, k - 1)
  }

  lemma {:induction false} UnsignedRoundTrip(u: nat, k: nat)
    requires u < Pow256(k)
    ensures Unsigned(UnsignedBytes(u, k)) == u
  {
    if k > 0 {
      UnsignedRoundTrip(u / 256, k - 1);
      assert UnsignedBytes(u, k)[1..] == UnsignedBytes(u / 256, k - 1);
    }
  }

  lemma {:induction false} BytesRoundTrip(b: seq<Byte>)
    ensures UnsignedBytes(Unsigned(b), |b|) == b
  {
    if b != [] {
      var u := Unsigned(b);
      assert u % 256 == b[0] && u / 256 == Unsigned(b[1..]);
      BytesRoundTrip(b[1..]);
    }
  }

  /** The smallest value that does not fit a signed sample of k bytes. */
  function Half(k: nat): int {
    Pow256(k) / 2
  }

  /** The signed value of a sample: the top half of the unsigned range is negative. */
  function SignedLE(b: seq<Byte>): (x: int)
    requires |b| > 0
    ensures -Half(|b|) <= x < Half(|b|)
  {
    var u := Unsigned(b);
    if u >= Half(|b|) then u - Pow256(|b|) else u
  }

  /** The k bytes of a signed sample. */
  function EncodeSigned(x: int, k: nat): (b: seq<Byte>)
    requires k > 0 && -Half(k) <= x < Half(k)
    ensures |b| == k
  {
    UnsignedBytes(if x < 0 then x + Pow256(k) else x, k)
  }

  lemma SignedRoundTrip(x: int, k: nat)
    requires k > 0 && -Half(k) <= x < Half(k)
    ensures SignedLE(EncodeSigned(x, k)) == x
  {
    UnsignedRoundTrip(if x < 0 then x + Pow256(k) else x, k);
  }

  lemma SignedBytesRoundTrip(b: seq<Byte>)
    requires |b| > 0
    ensures EncodeSigned(SignedLE(b), |b|) == b
  {
    BytesRoundTrip(b);
  }

  /** Bytes per sample for a bit depth (the divisor of the binary branch). */
  function BytesPerSample(bps: nat): (w: nat)
    ensures w == 1 || w == 2 || w == 4
    ensures bps == 8 || bps == 16 || bps == 32 ==> w * 8 == bps
  {
    if bps == 8 then 1 else if bps == 16 then 2 else 4
  }

  /** The whole samples of a chunk, in order. */
  function DecodeSamples(bytes: seq<Byte>, width: nat): (r: seq<real>)
    requires width > 0
    ensures |r| * width <= |bytes| < (|r| + 1) * width
    decreases |bytes|
  {
    if |bytes| < width then []
    else [SignedLE(bytes[..width]) as real] + DecodeSamples(bytes[width..], width)
  }

  /** The number of bytes left over after the whole samples. */
  function Remainder(bytes: seq<Byte>, width: nat): (n: nat)
    requires width > 0
    ensures n < width
    ensures |DecodeSamples(bytes, width)| * width + n == |bytes|
    decreases |bytes|
  {
    if |bytes| < width then |bytes|
    else
      var k := |DecodeSamples(bytes[width..], width)|;
      assert (k + 1) * width == k * width + width;
      Remainder(bytes[width..], width)
  }

  /**
   * The reader loop runs while its counter i satisfies i < chunk.length /
   * divisor, that is i * width < length, a fractional bound when the chunk
   * ends inside a sample.  Its number of reads is the count below: the
   * least whose reads cover the chunk.  It is one more than the whole
   * samples exactly when bytes are left over, and that last read is the
   * one that runs past the end.
   */
  lemma ReadCount(bytes: seq<Byte>, width: nat)
    requires width > 0
    ensures var count := |DecodeSamples(bytes, width)| + (if Remainder(bytes, width) == 0 then 0 else 1);
      && (count > 0 ==> (count - 1) * width < |bytes|)
      && count * width >= |bytes|
      && (count * width > |bytes| <==> Remainder(bytes, width) != 0)
  {
    CoverCount(|bytes|, |DecodeSamples(bytes, width)|, Remainder(bytes, width), width);
  }

  /** With len = k * w + n and n < w, the least count of w-blocks covering len. */
  lemma CoverCount(len: nat, k: nat, n: nat, w: nat)
    requires w > 0 && n < w && k * w + n == len
    ensures var count := k + (if n == 0 then 0 else 1);
      && (count > 0 ==> (count - 1) * w < len)
      && count * w >= len
      && (count * w > len <==> n != 0)
  {
    assert (k + 1) * w == k * w + w;
    if k > 0 {
      assert (k - 1) * w == k * w - w;
    }
  }

  predicate SampleFits(x: int, width: nat) {
    -Half(width) <= x < Half(width)
  }

  function EncodeSamples(xs: seq<int>, width: nat): (b: seq<Byte>)
    requires width > 0
    requires forall i :: 0 <= i < |xs| ==> SampleFits(xs[i], width)
  {
    if xs == [] then []
    else
      assert SampleFits(xs[0], width);
      EncodeSigned(xs[0], width) + EncodeSamples(xs[1..], width)
  }

  function Reals(xs: seq<int>): (r: seq<real>)
    ensures |r| == |xs|
    ensures forall i :: 0 <= i < |xs| ==> r[i] == xs[i] as real
  {
    seq(|xs|, i requires 0 <= i < |xs| => xs[i] as real)
  }

  /** Decoding an encoded run of samples gives the samples back, with nothing left over. */
  lemma {:induction false} SamplesRoundTrip(xs: seq<int>, width: nat)
    requires width > 0
    requires forall i :: 0 <= i < |xs| ==> SampleFits(xs[i], width)
    ensures DecodeSamples(EncodeSamples(xs, width), width) == Reals(xs)
    ensures Remainder(EncodeSamples(xs, width), width) == 0
  {
    if xs != [] {
      var head := EncodeSigned(xs[0], width);
      var b := EncodeSamples(xs, width);
      assert b[..width] == head;
      assert b[width..] == EncodeSamples(xs[1..], width);
      SignedRoundTrip(xs[0], width);
      SamplesRoundTrip(xs[1..], width);
      assert Reals(xs) == [xs[0] as real] + Reals(xs[1..]);
    }
  }
}
