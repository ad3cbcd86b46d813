/**
 * The level meter of the speech stream: the integer and exact-real side of
 * `SpeechStream._rms_int16` and the silence branch of `_rms_to_dbfs`.
 *
 * The square root and the logarithm are kept symbolic: an RMS value is
 * represented by the mean square it is the root of, and a finite dBFS value
 * by the power ratio whose `10 * log10` it is.
 */
module LevelMeter {

  /** One byte of a raw PCM buffer. */
  newtype byte = x: int | 0 <= x < 256

  /** Full scale of a signed 16-bit sample, the 0 dBFS reference. */
  const FullScale: int := 32767

  /** The root mean square level `sqrt(meanSquare)`, kept symbolic. */
  datatype Rms = RootOf(meanSquare: real)

  /** A level in dBFS: minus infinity, or `10 * log10(powerRatio)`. */
  datatype Dbfs = NegativeInfinity | Decibels(powerRatio: real)

  /** The level published before any frame has been measured: 0.0. */
  const SilentRms: Rms := RootOf(0.0)

  predicate IsSample(v: int)
  {
    -32768 <= v <= 32767
  }

  // ---------------------------------------------------------------------
  // Trimming and decoding
  // ---------------------------------------------------------------------

  /** The buffer with a dangling odd byte cut off, so that it holds whole samples. */
  function TrimToSamples(raw: seq<byte>): (r: seq<byte>)
    ensures |raw| - |r| == |raw| % 2
    ensures |r| % 2 == 0
    ensures r == raw[..|r|]
  {
    var tail := |raw| % 2;
    if tail != 0 then raw[..|raw| - tail] else raw
  }

  /** The signed 16-bit sample stored little-endian in two bytes. */
  function SampleOf(lo: byte, hi: byte): (v: int)
    ensures IsSample(v)
  {
    var u := lo as int + 256 * hi as int;
    if u >= 32768 then u - 65536 else u
  }

  /** The 16-bit samples held in an even-length buffer. */
  function Decode(raw: seq<byte>): (a: seq<int>)
    requires |raw| % 2 == 0
    ensures |a| == |raw| / 2
    ensures forall i :: 0 <= i < |a| ==> a[i] == SampleOf(raw[2 * i], raw[2 * i + 1])
  {
    if raw == [] then [] else [SampleOf(raw[0], raw[1])] + Decode(raw[2..])
  }

  function LowByte(v: int): (b: byte)
    requires IsSample(v)
  {
    ((v + 65536) % 256) as byte
  }

  function HighByte(v: int): (b: byte)
    requires IsSample(v)
  {
    (((v + 65536) % 65536) / 256) as byte
  }

  /** The little-endian bytes of a sequence of 16-bit samples. */
  function Encode(a: seq<int>): (raw: seq<byte>)
    requires forall i :: 0 <= i < |a| ==> IsSample(a[i])
    ensures |raw| == 2 * |a|
  {
    if a == [] then [] else [LowByte(a[0]), HighByte(a[0])] + Encode(a[1..])
  }

  lemma SampleOfBytes(v: int)
    requires IsSample(v)
    ensures SampleOf(LowByte(v), HighByte(v)) == v
  {
    var u := (v + 65536) % 65536;
    assert u == if v < 0 then v + 65536 else v;
    assert LowByte(v) as int + 256 * HighByte(v) as int == u;
  }

  lemma BytesOfSample(lo: byte, hi: byte)
    ensures LowByte(SampleOf(lo, hi)) == lo && HighByte(SampleOf(lo, hi)) == hi
  {
    var v := SampleOf(lo, hi);
    var u := lo as int + 256 * hi as int;
    assert (v + 65536) % 65536 == u;
    assert (v + 65536) % 256 == u % 256;
  }

  /** Decoding the encoding of samples gives the samples back. */
  lemma {:induction false} DecodeEncode(a: seq<int>)
    requires forall i :: 0 <= i < |a| ==> IsSample(a[i])
    ensures Decode(Encode(a)) == a
  {
    if a != [] {
      var raw := Encode(a);
      assert raw == [LowByte(a[0]), HighByte(a[0])] + Encode(a[1..]);
      assert raw[2..] == Encode(a[1..]);
      DecodeEncode(a[1..]);
      SampleOfBytes(a[0]);
    }
  }

  /** Encoding the samples decoded from an even-length buffer gives the buffer back. */
  lemma {:induction false} EncodeDecode(raw: seq<byte>)
    requires |raw| % 2 == 0
    ensures Encode(Decode(raw)) == raw
  {
    if raw != [] {
      var a := Decode(raw);
      assert a == [SampleOf(raw[0], raw[1])] + Decode(raw[2..]);
      assert a[1..] == Decode(raw[2..]);
      EncodeDecode(raw[2..]);
      BytesOfSample(raw[0], raw[1]);
    }
  }

  // ---------------------------------------------------------------------
  // Mean square
  // ---------------------------------------------------------------------

  function Square(x: real): (r: real)
  {
    x * x
  }

  /** The sum of the squares of the samples. */
  function SumSquares(a: seq<int>): (r: int)
  {
    if a == [] then 0 else SumSquares(a[..|a| - 1]) + a[|a| - 1] * a[|a| - 1]
  }

  /** The sum of the `count` samples starting at `start`. */
  function ChannelSum(a: seq<int>, start: nat, count: nat): (r: int)
    requires start + count <= |a|
  {
    if count == 0 then 0 else ChannelSum(a, start, count - 1) + a[start + count - 1]
  }

  /** The equal-weight average of the `channels` samples of one position. */
  function ChannelMean(a: seq<int>, start: nat, channels: nat): (r: real)
    requires channels > 0 && start + channels <= |a|
  {
    ChannelSum(a, start, channels) as real / channels as real
  }

  lemma PositionInRange(positions: nat, channels: nat, p: nat)
    requires p < positions
    ensures p * channels + channels <= positions * channels
  {
    assert p * channels + channels == (p + 1) * channels;
    assert (p + 1) * channels <= positions * channels;
  }

  /** The sum over the first `positions` positions of the squared channel means. */
  function DownmixSquares(a: seq<int>, channels: nat, positions: nat): (r: real)
    requires channels > 0 && positions * channels <= |a|
  {
    if positions == 0 then 0.0
    else
      PositionInRange(positions, channels, positions - 1);
      DownmixSquares(a, channels, positions - 1)
      + Square(ChannelMean(a, (positions - 1) * channels, channels))
  }

  lemma WholePositions(len: nat, channels: nat)
    requires channels > 0
    ensures (len / channels) * channels <= len
    ensures len - (len / channels) * channels < channels
  {
  }

  /**
   * The mean square of decoded samples for a frame of `bytesPerFrame` bytes
   * per sample position: mono when `bytesPerFrame <= 2`, otherwise the
   * samples of each whole position are averaged first and the incomplete
   * trailing position is ignored.
   */
  function SamplesMeanSquare(a: seq<int>, bytesPerFrame: int): (ms: real)
  {
    if a == [] then 0.0
    else if bytesPerFrame > 2 then
      var channels := bytesPerFrame / 2;
      var n := |a| / channels;
      if n == 0 then 0.0
      else
        WholePositions(|a|, channels);
        DownmixSquares(a, channels, n) / n as real
    else SumSquares(a) as real / |a| as real
  }

  /** The mean square whose root `_rms_int16` returns for a raw buffer. */
  function MeanSquare(raw: seq<byte>, bytesPerFrame: int): (ms: real)
  {
    SamplesMeanSquare(Decode(TrimToSamples(raw)), bytesPerFrame)
  }

  /** The inner loop of `_rms_int16`: the sum of the samples of one position. */
  method SumPosition(a: seq<int>, idx: nat, channels: nat) returns (s: real)
    requires idx + channels <= |a|
    ensures s == ChannelSum(a, idx, channels) as real
  {
    s := 0.0;
    var c := 0;
    while c < channels
      invariant 0 <= c <= channels
      invariant s == ChannelSum(a, idx, c) as real
    {
      s := s + a[idx + c] as real;
      c := c + 1;
    }
  }

  /** The position loop of `_rms_int16`: the squared channel means of `n` positions. */
  method SumDownmixSquares(a: seq<int>, channels: nat, n: nat) returns (acc: real)
    requires channels > 0 && n * channels <= |a|
    ensures acc == DownmixSquares(a, channels, n)
  {
    acc := 0.0;
    var idx := 0;
    var p := 0;
    while p < n
      invariant 0 <= p <= n
      invariant idx == p * channels
      invariant acc == DownmixSquares(a, channels, p)
    {
      PositionInRange(n, channels, p);
      var s := SumPosition(a, idx, channels);
      s := s / channels as real;
      DownmixStep(a, channels, p, s);
      acc := acc + s * s;
      idx := idx + channels;
      p := p + 1;
    }
  }

  lemma DownmixStep(a: seq<int>, channels: nat, p: nat, mean: real)
    requires channels > 0 && (p + 1) * channels <= |a|
    requires mean == ChannelMean(a, p * channels, channels)
    ensures p * channels + channels == (p + 1) * channels
    ensures DownmixSquares(a, channels, p + 1) == DownmixSquares(a, channels, p) + mean * mean
  {
    assert p * channels + channels == (p + 1) * channels;
  }

  /** The mono loop of `_rms_int16`: the sum of the squared samples. */
  method SumSampleSquares(a: seq<int>) returns (acc: real)
    ensures acc == SumSquares(a) as real
  {
    acc := 0.0;
    var i := 0;
    while i < |a|
      invariant 0 <= i <= |a|
      invariant acc == SumSquares(a[..i]) as real
    {
      assert a[..i + 1][..i] == a[..i];
      acc := acc + (a[i] * a[i]) as real;
      i := i + 1;
    }
    assert a[..|a|] == a;
  }

  /**
   * `_rms_int16`: trims an odd trailing byte, decodes 16-bit samples and
   * accumulates the squares, downmixing several channels per position.
   */
  method RmsInt16(raw: seq<byte>, bytesPerFrame: int) returns (rms: Rms)
    ensures rms.meanSquare == MeanSquare(raw, bytesPerFrame)
  {
    var trimmed := TrimToSamples(raw);
    if trimmed == [] {
      return RootOf(0.0);
    }
    var a := Decode(trimmed);
    if bytesPerFrame > 2 {
      var channels := bytesPerFrame / 2;
      var n := |a| / channels;
      if n == 0 {
        return RootOf(0.0);
      }
      WholePositions(|a|, channels);
      var acc := SumDownmixSquares(a, channels, n);
      return RootOf(acc / n as real);
    }
    var acc := SumSampleSquares(a);
    return RootOf(acc / |a| as real);
  }

  /**
   * `_rms_to_dbfs`: an RMS of at most zero is minus infinity; otherwise the
   * level is `20 * log10(rms / 32767)`, that is `10 * log10` of the power ratio.
   */
  function RmsToDbfs(rms: Rms): (d: Dbfs)
    ensures d.NegativeInfinity? <==> rms.meanSquare <= 0.0
    ensures d.Decibels? ==> d.powerRatio > 0.0
  {
    if rms.meanSquare <= 0.0 then NegativeInfinity
    else Decibels(rms.meanSquare / (FullScale * FullScale) as real)
  }

  // ---------------------------------------------------------------------
  // Properties of the level meter
  // ---------------------------------------------------------------------

  /** An odd trailing byte never changes the measured level. */
  lemma TrailingByteIgnored(raw: seq<byte>, b: byte)
    requires |raw| % 2 == 0
    ensures MeanSquare(raw + [b], 2) == MeanSquare(raw, 2)
    ensures forall bytesPerFrame :: MeanSquare(raw + [b], bytesPerFrame) == MeanSquare(raw, bytesPerFrame)
  {
    assert TrimToSamples(raw + [b]) == raw;
  }

  /** A buffer with no whole sample measures 0.0, so its level is minus infinity. */
  lemma EmptyIsSilent(raw: seq<byte>, bytesPerFrame: int)
    requires |raw| <= 1
    ensures MeanSquare(raw, bytesPerFrame) == 0.0
    ensures RmsToDbfs(RootOf(MeanSquare(raw, bytesPerFrame))) == NegativeInfinity
  {
    assert TrimToSamples(raw) == [];
  }

  /** With several channels and fewer samples than channels the level is 0.0. */
  lemma FewerSamplesThanChannels(raw: seq<byte>, bytesPerFrame: int)
    requires bytesPerFrame > 2
    requires |raw| / 2 < bytesPerFrame / 2
    ensures MeanSquare(raw, bytesPerFrame) == 0.0
  {
  }

  lemma {:induction false} SumSquaresNonNegative(a: seq<int>)
    ensures SumSquares(a) >= 0
  {
    if a != [] {
      SumSquaresNonNegative(a[..|a| - 1]);
    }
  }

  lemma {:induction false} DownmixSquaresNonNegative(a: seq<int>, channels: nat, positions: nat)
    requires channels > 0 && positions * channels <= |a|
    ensures DownmixSquares(a, channels, positions) >= 0.0
  {
    if positions > 0 {
      PositionInRange(positions, channels, positions - 1);
      DownmixSquaresNonNegative(a, channels, positions - 1);
    }
  }

  /** The mean square is never negative, so the symbolic root is well defined. */
  lemma MeanSquareNonNegative(raw: seq<byte>, bytesPerFrame: int)
    ensures MeanSquare(raw, bytesPerFrame) >= 0.0
  {
    SamplesMeanSquareNonNegative(Decode(TrimToSamples(raw)), bytesPerFrame);
  }

  lemma SamplesMeanSquareNonNegative(a: seq<int>, bytesPerFrame: int)
    ensures SamplesMeanSquare(a, bytesPerFrame) >= 0.0
  {
    if a != [] {
      if bytesPerFrame > 2 {
        var channels := bytesPerFrame / 2;
        var n := |a| / channels;
        if n > 0 {
          WholePositions(|a|, channels);
          DownmixSquaresNonNegative(a, channels, n);
        }
      } else {
        SumSquaresNonNegative(a);
      }
    }
  }

  lemma {:induction false} SumSquaresOfZeros(a: seq<int>)
    requires forall i :: 0 <= i < |a| ==> a[i] == 0
    ensures SumSquares(a) == 0
  {
    if a != [] {
      SumSquaresOfZeros(a[..|a| - 1]);
    }
  }

  lemma {:induction false} ChannelSumOfZeros(a: seq<int>, start: nat, count: nat)
    requires start + count <= |a|
    requires forall i :: 0 <= i < |a| ==> a[i] == 0
    ensures ChannelSum(a, start, count) == 0
  {
    if count > 0 {
      ChannelSumOfZeros(a, start, count - 1);
    }
  }

  lemma {:induction false} DownmixSquaresOfZeros(a: seq<int>, channels: nat, positions: nat)
    requires channels > 0 && positions * channels <= |a|
    requires forall i :: 0 <= i < |a| ==> a[i] == 0
    ensures DownmixSquares(a, channels, positions) == 0.0
  {
    if positions > 0 {
      PositionInRange(positions, channels, positions - 1);
      DownmixSquaresOfZeros(a, channels, positions - 1);
      ChannelSumOfZeros(a, (positions - 1) * channels, channels);
    }
  }

  /** A frame of all-zero samples measures 0.0, whatever the channel count. */
  lemma ZeroSamplesAreSilent(a: seq<int>, bytesPerFrame: int)
    requires forall i :: 0 <= i < |a| ==> a[i] == 0
    ensures SamplesMeanSquare(a, bytesPerFrame) == 0.0
  {
    if a != [] {
      if bytesPerFrame > 2 {
        var channels := bytesPerFrame / 2;
        var n := |a| / channels;
        if n > 0 {
          WholePositions(|a|, channels);
          DownmixSquaresOfZeros(a, channels, n);
          ZeroOver(DownmixSquares(a, channels, n), n);
        }
      } else {
        SumSquaresOfZeros(a);
        ZeroOver(SumSquares(a) as real, |a|);
      }
    }
  }

  lemma ZeroOver(x: real, n: nat)
    requires x == 0.0 && n > 0
    ensures x / n as real == 0.0
  {
  }

  lemma {:induction false} SumSquaresZeroOnlyForZeros(a: seq<int>)
    requires SumSquares(a) == 0
    ensures forall i :: 0 <= i < |a| ==> a[i] == 0
  {
    if a != [] {
      var last := a[|a| - 1];
      SumSquaresNonNegative(a[..|a| - 1]);
      assert last * last >= 0;
      assert last * last == 0;
      SumSquaresZeroOnlyForZeros(a[..|a| - 1]);
      forall i | 0 <= i < |a|
        ensures a[i] == 0
      {
        if i < |a| - 1 {
          assert a[i] == a[..|a| - 1][i];
        }
      }
    }
  }

  /** In mono a frame measures 0.0 exactly when every sample is zero. */
  lemma MonoSilentIffZero(a: seq<int>, bytesPerFrame: int)
    requires bytesPerFrame <= 2
    ensures SamplesMeanSquare(a, bytesPerFrame) == 0.0
            <==> forall i :: 0 <= i < |a| ==> a[i] == 0
  {
    if a != [] {
      SumSquaresNonNegative(a);
      if SamplesMeanSquare(a, bytesPerFrame) == 0.0 {
        assert SumSquares(a) as real == 0.0;
        SumSquaresZeroOnlyForZeros(a);
      } else if forall i :: 0 <= i < |a| ==> a[i] == 0 {
        SumSquaresOfZeros(a);
      }
    }
  }

  /** The largest square of a 16-bit sample, that of -32768. */
  const MaxSquare: int := 32768 * 32768

  lemma {:induction false} SumSquaresBounded(a: seq<int>)
    requires forall i :: 0 <= i < |a| ==> IsSample(a[i])
    ensures SumSquares(a) <= |a| * MaxSquare
  {
    if a != [] {
      var v := a[|a| - 1];
      SumSquaresBounded(a[..|a| - 1]);
      SquareBounded(v as real);
      assert (v * v) as real == v as real * v as real;
    }
  }

  lemma {:induction false} ChannelSumBounded(a: seq<int>, start: nat, count: nat)
    requires start + count <= |a|
    requires forall i :: 0 <= i < |a| ==> IsSample(a[i])
    ensures -32768 * count <= ChannelSum(a, start, count) <= 32767 * count
  {
    if count > 0 {
      ChannelSumBounded(a, start, count - 1);
    }
  }

  lemma SquareBounded(s: real)
    requires -32768.0 <= s <= 32767.0
    ensures Square(s) <= MaxSquare as real
  {
    if s >= 0.0 {
      assert s * s <= s * 32768.0;
    } else {
      assert s * s <= (-s) * 32768.0;
    }
  }

  lemma QuotientInRange(sum: real, c: real, lo: real, hi: real)
    requires c > 0.0 && lo * c <= sum <= hi * c
    ensures lo <= sum / c <= hi
  {
    assert (sum / c) * c == sum;
  }

  lemma ChannelMeanBounded(a: seq<int>, start: nat, channels: nat)
    requires channels > 0 && start + channels <= |a|
    requires forall i :: 0 <= i < |a| ==> IsSample(a[i])
    ensures Square(ChannelMean(a, start, channels)) <= MaxSquare as real
  {
    ChannelSumBounded(a, start, channels);
    var sum := ChannelSum(a, start, channels);
    var c := channels as real;
    assert (-32768 * channels) as real == -32768.0 * c;
    assert (32767 * channels) as real == 32767.0 * c;
    QuotientInRange(sum as real, c, -32768.0, 32767.0);
    SquareBounded(sum as real / c);
  }

  lemma {:induction false} DownmixSquaresBounded(a: seq<int>, channels: nat, positions: nat)
    requires channels > 0 && positions * channels <= |a|
    requires forall i :: 0 <= i < |a| ==> IsSample(a[i])
    ensures DownmixSquares(a, channels, positions) <= positions as real * MaxSquare as real
  {
    if positions > 0 {
      PositionInRange(positions, channels, positions - 1);
      DownmixSquaresBounded(a, channels, positions - 1);
      ChannelMeanBounded(a, (positions - 1) * channels, channels);
    }
  }

  lemma MeanBounded(total: real, count: nat)
    requires count > 0 && total <= count as real * MaxSquare as real
    ensures total / count as real <= MaxSquare as real
  {
    QuotientInRange(total, count as real, total / count as real, MaxSquare as real);
  }

  lemma MonoMeanSquareBounded(a: seq<int>)
    requires a != []
    requires forall i :: 0 <= i < |a| ==> IsSample(a[i])
    ensures SumSquares(a) as real / |a| as real <= MaxSquare as real
  {
    SumSquaresBounded(a);
    assert (|a| * MaxSquare) as real == |a| as real * MaxSquare as real;
    MeanBounded(SumSquares(a) as real, |a|);
  }

  lemma DownmixMeanSquareBounded(a: seq<int>, channels: nat, n: nat)
    requires channels > 0 && n > 0 && n * channels <= |a|
    requires forall i :: 0 <= i < |a| ==> IsSample(a[i])
    ensures DownmixSquares(a, channels, n) / n as real <= MaxSquare as real
  {
    DownmixSquaresBounded(a, channels, n);
    MeanBounded(DownmixSquares(a, channels, n), n);
  }

  lemma PowerRatioBounded(ms: real)
    requires ms <= MaxSquare as real
    ensures RmsToDbfs(RootOf(ms)).Decibels? ==>
              RmsToDbfs(RootOf(ms)).powerRatio <= MaxSquare as real / (FullScale * FullScale) as real
  {
    var fs := (FullScale * FullScale) as real;
    assert fs > 0.0;
    if ms > 0.0 {
      assert RmsToDbfs(RootOf(ms)).powerRatio == ms / fs;
      QuotientInRange(ms, fs, ms / fs, MaxSquare as real / fs);
    }
  }

  /**
   * No frame measures above the square of the most negative sample, so the
   * RMS never exceeds 32768 and the dBFS value never exceeds
   * `20 * log10(32768 / 32767)`.
   */
  lemma MeanSquareBounded(raw: seq<byte>, bytesPerFrame: int)
    ensures MeanSquare(raw, bytesPerFrame) <= MaxSquare as real
    ensures RmsToDbfs(RootOf(MeanSquare(raw, bytesPerFrame))).Decibels? ==>
              RmsToDbfs(RootOf(MeanSquare(raw, bytesPerFrame))).powerRatio
              <= MaxSquare as real / (FullScale * FullScale) as real
  {
    var a := Decode(TrimToSamples(raw));
    assert forall i :: 0 <= i < |a| ==> IsSample(a[i]);
    SamplesMeanSquareBounded(a, bytesPerFrame);
    PowerRatioBounded(MeanSquare(raw, bytesPerFrame));
  }

  lemma SamplesMeanSquareBounded(a: seq<int>, bytesPerFrame: int)
    requires forall i :: 0 <= i < |a| ==> IsSample(a[i])
    ensures SamplesMeanSquare(a, bytesPerFrame) <= MaxSquare as real
  {
    if a != [] {
      if bytesPerFrame > 2 {
        var channels := bytesPerFrame / 2;
        var n := |a| / channels;
        if n > 0 {
          WholePositions(|a|, channels);
          DownmixMeanSquareBounded(a, channels, n);
        }
      } else {
        MonoMeanSquareBounded(a);
      }
    }
  }

  /** Bytes of a mono frame of `count` samples all at -32768. */
  function NegativeFullScale(count: nat): (raw: seq<byte>)
    ensures |raw| == 2 * count
  {
    if count == 0 then [] else NegativeFullScale(count - 1) + [0, 128]
  }

  lemma {:induction false} DecodeNegativeFullScale(count: nat)
    ensures Decode(NegativeFullScale(count)) == Repeat(-32768, count)
  {
    var raw := NegativeFullScale(count);
    var a := Decode(raw);
    forall i | 0 <= i < count
      ensures a[i] == -32768
    {
      DecodeNegativeFullScaleAt(count, i);
    }
  }

  lemma {:induction false} DecodeNegativeFullScaleAt(count: nat, i: nat)
    requires i < count
    ensures NegativeFullScale(count)[2 * i] == 0 && NegativeFullScale(count)[2 * i + 1] == 128
  {
    if i < count - 1 {
      DecodeNegativeFullScaleAt(count - 1, i);
    }
  }

  lemma {:induction false} SumSquaresOfRepeat(v: int, count: nat)
    ensures SumSquares(Repeat(v, count)) == count * (v * v)
  {
    if count > 0 {
      var r, w := Repeat(v, count), v * v;
      assert r[..count - 1] == Repeat(v, count - 1) && r[count - 1] == v;
      SumSquaresOfRepeat(v, count - 1);
      assert SumSquares(r) == (count - 1) * w + w;
      MultiplyOut(count, w);
    }
  }

  lemma MultiplyOut(k: int, w: int)
    ensures (k - 1) * w + w == k * w
  {
  }

  /**
   * The bound is reached, and it lies above the 0 dBFS reference: a
   * non-empty mono frame at -32768 measures 32768 squared, a power ratio
   * above one, so its dBFS value is positive.
   */
  lemma NegativeFullScaleAboveZeroDbfs(count: nat)
    requires count > 0
    ensures MeanSquare(NegativeFullScale(count), 2) == MaxSquare as real
    ensures RmsToDbfs(RootOf(MeanSquare(NegativeFullScale(count), 2))).Decibels?
    ensures RmsToDbfs(RootOf(MeanSquare(NegativeFullScale(count), 2))).powerRatio > 1.0
  {
    NegativeFullScaleMeanSquare(count);
    RatioAboveOne(MaxSquare as real, (FullScale * FullScale) as real);
  }

  lemma NegativeFullScaleMeanSquare(count: nat)
    requires count > 0
    ensures MeanSquare(NegativeFullScale(count), 2) == MaxSquare as real
  {
    var raw := NegativeFullScale(count);
    assert TrimToSamples(raw) == raw;
    DecodeNegativeFullScale(count);
    RepeatMeanSquare(-32768, count);
  }

  /** A mono frame repeating one sample measures that sample squared. */
  lemma RepeatMeanSquare(v: int, count: nat)
    requires count > 0
    ensures SamplesMeanSquare(Repeat(v, count), 2) == (v * v) as real
  {
    SumSquaresOfRepeat(v, count);
    DivideOut(count, v * v);
  }

  lemma RatioAboveOne(x: real, y: real)
    requires 0.0 < y < x
    ensures x / y > 1.0
  {
    assert (x / y) * y == x;
  }

  lemma DivideOut(k: nat, m: int)
    requires k > 0
    ensures (k * m) as real / k as real == m as real
  {
    assert (k * m) as real == k as real * m as real;
  }

  /**
   * The equal-weight downmix can cancel: a stereo position holding 5 and -5
   * measures 0.0, so a non-silent frame is reported at minus infinity.
   */
  lemma DownmixCanCancel()
    ensures SamplesMeanSquare([5, -5], 4) == 0.0
    ensures RmsToDbfs(RootOf(SamplesMeanSquare([5, -5], 4))) == NegativeInfinity
  {
    assert ChannelSum([5, -5], 0, 2) == 0;
  }

  // ---------------------------------------------------------------------
  // Equal-weight downmix over identical channels
  // ---------------------------------------------------------------------

  /** `count` copies of one sample, as every channel of one position. */
  function Repeat(v: int, count: nat): (r: seq<int>)
    ensures |r| == count && forall i :: 0 <= i < count ==> r[i] == v
  {
    if count == 0 then [] else Repeat(v, count - 1) + [v]
  }

  /** A multi-channel frame whose channels all carry the mono samples `x`. */
  function Interleaved(x: seq<int>, channels: nat): (a: seq<int>)
    ensures |a| == |x| * channels
  {
    if x == [] then [] else Interleaved(x[..|x| - 1], channels) + Repeat(x[|x| - 1], channels)
  }

  lemma {:induction false} ChannelSumAppend(a: seq<int>, b: seq<int>, start: nat, count: nat)
    requires start + count <= |a|
    ensures ChannelSum(a + b, start, count) == ChannelSum(a, start, count)
  {
    if count > 0 {
      ChannelSumAppend(a, b, start, count - 1);
      assert (a + b)[start + count - 1] == a[start + count - 1];
    }
  }

  lemma {:induction false} DownmixSquaresAppend(a: seq<int>, b: seq<int>, channels: nat, positions: nat)
    requires channels > 0 && positions * channels <= |a|
    ensures DownmixSquares(a + b, channels, positions) == DownmixSquares(a, channels, positions)
  {
    if positions > 0 {
      PositionInRange(positions, channels, positions - 1);
      DownmixSquaresAppend(a, b, channels, positions - 1);
      ChannelSumAppend(a, b, (positions - 1) * channels, channels);
    }
  }

  lemma {:induction false} ChannelSumOfRepeat(a: seq<int>, v: int, start: nat, count: nat)
    requires start + count <= |a|
    requires forall i :: start <= i < start + count ==> a[i] == v
    ensures ChannelSum(a, start, count) == count * v
  {
    if count > 0 {
      ChannelSumOfRepeat(a, v, start, count - 1);
    }
  }

  lemma MeanOfEqualChannels(v: int, channels: nat)
    requires channels > 0
    ensures Square((channels * v) as real / channels as real) == (v * v) as real
  {
    assert (channels * v) as real == channels as real * v as real;
    assert (channels * v) as real / channels as real == v as real;
  }

  lemma LastPositionOfInterleaved(x: seq<int>, channels: nat)
    requires channels > 0 && x != []
    ensures (|x| - 1) * channels + channels <= |Interleaved(x, channels)|
    ensures Square(ChannelMean(Interleaved(x, channels), (|x| - 1) * channels, channels))
            == (x[|x| - 1] * x[|x| - 1]) as real
  {
    var v := x[|x| - 1];
    var front := Interleaved(x[..|x| - 1], channels);
    var a := Interleaved(x, channels);
    assert a == front + Repeat(v, channels);
    assert |front| == (|x| - 1) * channels;
    forall i | |front| <= i < |front| + channels
      ensures a[i] == v
    {
      assert a[i] == Repeat(v, channels)[i - |front|];
    }
    ChannelSumOfRepeat(a, v, |front|, channels);
    MeanOfEqualChannels(v, channels);
  }

  /** Downmixing identical channels gives back the squares of the mono samples. */
  lemma {:induction false} DownmixOfIdenticalChannels(x: seq<int>, channels: nat)
    requires channels > 0
    ensures DownmixSquares(Interleaved(x, channels), channels, |x|) == SumSquares(x) as real
  {
    if x != [] {
      var init := x[..|x| - 1];
      var v := x[|x| - 1];
      var front := Interleaved(init, channels);
      var a := Interleaved(x, channels);
      assert a == front + Repeat(v, channels);
      DownmixOfIdenticalChannels(init, channels);
      DownmixSquaresAppend(front, Repeat(v, channels), channels, |init|);
      LastPositionOfInterleaved(x, channels);
      assert DownmixSquares(a, channels, |x|)
          == DownmixSquares(a, channels, |init|) + (v * v) as real;
    }
  }

  lemma {:induction false} MulGrows(k: nat, c: nat)
    requires k >= 1
    ensures k * c >= c
  {
    if k > 1 {
      MulGrows(k - 1, c);
      assert k * c == (k - 1) * c + c;
    }
  }

  lemma DivideExactly(q: nat, channels: nat, extra: nat)
    requires channels > 0 && extra < channels
    ensures (q * channels + extra) / channels == q
  {
    var x := q * channels + extra;
    var d := x / channels;
    var m := x % channels;
    assert x == d * channels + m && 0 <= m < channels;
    if q > d {
      MulGrows(q - d, channels);
      assert false;
    } else if q < d {
      MulGrows(d - q, channels);
      assert false;
    }
  }

  /**
   * The downmix weighs channels equally: a multi-channel frame whose channels
   * all carry the same samples measures exactly what the mono frame measures.
   */
  lemma IdenticalChannelsMeasureAsMono(x: seq<int>, channels: nat)
    requires channels >= 2
    ensures SamplesMeanSquare(Interleaved(x, channels), 2 * channels) == SamplesMeanSquare(x, 2)
  {
    var a := Interleaved(x, channels);
    if x != [] {
      assert (2 * channels) / 2 == channels;
      DivideExactly(|x|, channels, 0);
      assert |a| / channels == |x|;
      DownmixOfIdenticalChannels(x, channels);
    }
  }

  /** Samples of an incomplete trailing position are ignored by the downmix. */
  lemma IncompletePositionIgnored(a: seq<int>, extra: seq<int>, bytesPerFrame: int)
    requires bytesPerFrame > 2
    requires |a| % (bytesPerFrame / 2) == 0 && |extra| < bytesPerFrame / 2
    ensures SamplesMeanSquare(a + extra, bytesPerFrame) == SamplesMeanSquare(a, bytesPerFrame)
  {
    var channels := bytesPerFrame / 2;
    var n := |a| / channels;
    assert n * channels == |a|;
    DivideExactly(n, channels, |extra|);
    assert (|a| + |extra|) / channels == n;
    if n > 0 {
      DownmixSquaresAppend(a, extra, channels, n);
    }
  }
}
