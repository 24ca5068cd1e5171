/** The sample pipeline of the WASAPI capture: decode, mix down to stereo, resample to 48 kHz
    and quantize. Samples are exact reals here; the rounding of float and double is not modelled. */
module AudioConvert {
  import opened Arithmetic


  const SAMPLE_RATE: nat := 48000
  const SAMPLE_RATE_REAL: real := 48000.0

  type Byte = b: nat | b < 256

  /** mix_format_info; `asFloat` reads a 4-byte IEEE sample. */
  datatype MixFormat = MixFormat(isFloat: bool, sampleBytes: nat, bits: nat, channels: nat, rate: nat,
                                 asFloat: seq<Byte> -> real)

  datatype AudioFormat = S16 | S32 | F32

  /** One interleaved frame in the requested format. */
  datatype Frame = Pcm(left: int, right: int) | Float(leftF: real, rightF: real)

  datatype Stereo = Stereo(left: real, right: real)

  predicate SupportedFormat(f: MixFormat) { f.channels > 0 && f.rate > 0 }

  // ---- decoding ----------------------------------------------------------------

  /** Two's complement of an n-bit pattern given as a number below `modulus` = 2^n. */
  function Signed(v: nat, modulus: nat): int { if 2 * v >= modulus then v - modulus else v }

  function Little(bytes: seq<Byte>): nat {
    if bytes == [] then 0 else bytes[0] + 256 * Little(bytes[1..])
  }

  /** decode_sample; an arithmetic shift by 8 is a floor division by 256. */
  function DecodeSample(f: MixFormat, p: seq<Byte>): real
    requires |p| == f.sampleBytes
  {
    if f.isFloat then (if f.sampleBytes == 4 then f.asFloat(p) else 0.0)
    else if f.sampleBytes == 2 then Signed(Little(p), 0x1_0000) as real / 32768.0
    else if f.sampleBytes == 3 then Signed(Little(p), 0x100_0000) as real / 8388608.0
    else if f.sampleBytes == 4 then
      if f.bits == 24 then (Signed(Little(p), 0x1_0000_0000) / 256) as real / 8388608.0
      else Signed(Little(p), 0x1_0000_0000) as real / 2147483648.0
    else 0.0
  }

  function Unit(p: seq<Byte>, i: nat): int
    requires i < |p|
  {
    p[i]
  }

  /** The number that a little-endian byte pattern stands for in two's complement: its last byte
      counts from -128 to 127. */
  function TwosComplement(p: seq<Byte>): int
    requires 2 <= |p| <= 4
  {
    var n := |p|;
    var last: int := p[n - 1];
    var top := if last >= 128 then last - 256 else last;
    if n == 2 then 256 * top + Unit(p, 0)
    else if n == 3 then 65536 * top + 256 * Unit(p, 1) + Unit(p, 0)
    else 16777216 * top + 65536 * Unit(p, 2) + 256 * Unit(p, 1) + Unit(p, 0)
  }

  /** A sample is its number over the full scale of its width, for 16, 24 and 32 bits; of 24 bits in a
      32-bit container the three upper bytes count. A float must have four bytes, and any other width
      is silence. */
  lemma DecodesExactly(f: MixFormat, p: seq<Byte>)
    requires |p| == f.sampleBytes
    ensures f.isFloat ==> DecodeSample(f, p) == if |p| == 4 then f.asFloat(p) else 0.0
    ensures !f.isFloat && |p| == 2 ==> DecodeSample(f, p) == TwosComplement(p) as real / 32768.0
    ensures !f.isFloat && |p| == 3 ==> DecodeSample(f, p) == TwosComplement(p) as real / 8388608.0
    ensures !f.isFloat && |p| == 4 && f.bits == 24 ==> DecodeSample(f, p) == TwosComplement(p[1..]) as real / 8388608.0
    ensures !f.isFloat && |p| == 4 && f.bits != 24 ==> DecodeSample(f, p) == TwosComplement(p) as real / 2147483648.0
    ensures |p| < 2 || |p| > 4 ==> DecodeSample(f, p) == 0.0
  {
    if 2 <= |p| <= 4 { SignedIs(p); }
    hide Signed, Little, TwosComplement;
  }

  lemma SignedIs(p: seq<Byte>)
    requires 2 <= |p| <= 4
    ensures |p| == 2 ==> Signed(Little(p), 0x1_0000) == TwosComplement(p)
    ensures |p| == 3 ==> Signed(Little(p), 0x100_0000) == TwosComplement(p)
    ensures |p| == 4 ==> Signed(Little(p), 0x1_0000_0000) == TwosComplement(p)
    ensures |p| == 4 ==> Signed(Little(p), 0x1_0000_0000) / 256 == TwosComplement(p[1..])
  {
    LittleIs(p);
    hide Little;
    if |p| == 4 { assert Unit(p[1..], 0) == Unit(p, 1) && Unit(p[1..], 1) == Unit(p, 2) && p[1..][2] == p[3]; }
  }

  lemma LittleIs(p: seq<Byte>)
    requires 2 <= |p| <= 4
    ensures |p| == 2 ==> Little(p) == Unit(p, 0) + 256 * Unit(p, 1)
    ensures |p| == 3 ==> Little(p) == Unit(p, 0) + 256 * Unit(p, 1) + 65536 * Unit(p, 2)
    ensures |p| == 4 ==>
              Little(p) == Unit(p, 0) + 256 * Unit(p, 1) + 65536 * Unit(p, 2) + 16777216 * Unit(p, 3)
  {
    assert Little(p) == Unit(p, 0) + 256 * Little(p[1..]);
    assert Little(p[1..]) == Unit(p, 1) + 256 * Little(p[2..]);
    if |p| > 2 { assert Little(p[2..]) == Unit(p, 2) + 256 * Little(p[3..]); }
    if |p| > 3 { assert Little(p[3..]) == Unit(p, 3) + 256 * Little(p[4..]); }
  }

  predicate HasFrames(f: MixFormat, data: seq<Byte>, n: nat) {
    |data| >= n * f.channels * f.sampleBytes
  }

  /** Where the sample of channel c in frame i starts. */
  function Offset(f: MixFormat, i: nat, c: nat): nat { (i * f.channels + c) * f.sampleBytes }

  /** The samples lie one behind the other, channel by channel and frame by frame. */
  lemma SamplesFollowEachOther(f: MixFormat, i: nat, c: nat)
    ensures Offset(f, 0, 0) == 0
    ensures Offset(f, i, c + 1) == Offset(f, i, c) + f.sampleBytes
    ensures Offset(f, i + 1, 0) == Offset(f, i, f.channels)
  {
  }

  lemma SampleInBounds(f: MixFormat, data: seq<Byte>, n: nat, i: nat, c: nat)
    requires HasFrames(f, data, n) && i < n && c < f.channels
    ensures Offset(f, i, c) + f.sampleBytes <= |data|
  {
    TimesMonotone(i + 1, n, f.channels);
    TimesMonotone(i * f.channels + c + 1, n * f.channels, f.sampleBytes);
  }

  /** Channel c of frame i. */
  function SampleAt(f: MixFormat, data: seq<Byte>, n: nat, i: nat, c: nat): real
    requires HasFrames(f, data, n) && i < n && c < f.channels
  {
    SampleInBounds(f, data, n, i, c);
    DecodeSample(f, data[Offset(f, i, c)..Offset(f, i, c) + f.sampleBytes])
  }

  // ---- mixing down -----------------------------------------------------------------

  /** One frame of downmix_to_stereo. */
  function Downmix(s: seq<real>): Stereo
    requires |s| > 0
  {
    if |s| == 1 then Stereo(s[0], s[0])
    else if |s| == 2 then Stereo(s[0], s[1])
    else if |s| == 4 then Stereo((s[0] + s[2]) * 0.5, (s[1] + s[3]) * 0.5)
    else if |s| == 6 then Stereo(s[0] + s[2] * 0.5 + s[4] * 0.5, s[1] + s[2] * 0.5 + s[5] * 0.5)
    else if |s| == 8 then
      Stereo(s[0] + s[2] * 0.5 + s[4] * 0.5 + s[6] * 0.5, s[1] + s[2] * 0.5 + s[5] * 0.5 + s[7] * 0.5)
    else Stereo(s[0], s[1])
  }

  /** The speakers of the usual layouts, each on one side or in the middle. */
  datatype Speaker = Mono | Front(left: bool) | Center | LowFrequency | Surround(left: bool)

  const FRONT: seq<Speaker> := [Front(true), Front(false)]
  const SURROUND: seq<Speaker> := [Surround(true), Surround(false)]

  /** Which speaker each channel is for; of an unusual layout only the front counts. */
  function Layout(n: nat): seq<Speaker> {
    if n == 1 then [Mono]
    else if n == 4 then FRONT + SURROUND
    else if n == 6 then FRONT + [Center, LowFrequency] + SURROUND
    else if n == 8 then FRONT + [Center, LowFrequency] + SURROUND + SURROUND
    else FRONT
  }

  /** How loud a speaker is on one side of the mix of n channels. */
  function Gain(speaker: Speaker, n: nat, left: bool): real {
    match speaker
    case Mono => 1.0
    case Front(l) => if l != left then 0.0 else if n == 4 then 0.5 else 1.0
    case Center => 0.5
    case LowFrequency => 0.0
    case Surround(l) => if l != left then 0.0 else 0.5
  }

  /** What the channels from c on add to one side. */
  function MixOf(s: seq<real>, layout: seq<Speaker>, left: bool, c: nat): real
    requires |layout| <= |s|
    decreases |layout| - c
  {
    if c >= |layout| then 0.0 else Times(s[c], Gain(layout[c], |s|, left)) + MixOf(s, layout, left, c + 1)
  }

  /** Each side is the sum of the speakers at their gains: those of its own side, the middle at
      half, no low-frequency channel. */
  lemma DownmixIsTheMix(s: seq<real>)
    requires |s| > 0
    ensures |Layout(|s|)| <= |s|
    ensures Downmix(s).left == MixOf(s, Layout(|s|), true, 0)
    ensures Downmix(s).right == MixOf(s, Layout(|s|), false, 0)
  {
    SideOfTheMix(s, true);
    SideOfTheMix(s, false);
    hide MixOf, Layout;
  }

  lemma SideOfTheMix(s: seq<real>, left: bool)
    requires |s| > 0
    ensures var layout := Layout(|s|); var d := Downmix(s);
      |layout| <= |s| && MixOf(s, layout, left, 0) == if left then d.left else d.right
  {
    hide MixOf, Times;
    var layout := Layout(|s|);
    var n := |layout|;
    MixStep(s, layout, left, 0);
    MixStep(s, layout, left, 1);
    if n > 1 { MixStep(s, layout, left, 2); }
    if n > 2 { MixStep(s, layout, left, 3); MixStep(s, layout, left, 4); }
    if n > 4 { MixStep(s, layout, left, 5); MixStep(s, layout, left, 6); }
    if n > 6 { MixStep(s, layout, left, 7); MixStep(s, layout, left, 8); }
    forall c | 0 <= c < n
      ensures Times(s[c], 0.0) == 0.0 && Times(s[c], 0.5) == s[c] * 0.5 && Times(s[c], 1.0) == s[c]
    {
      PlainGains(s[c]);
    }
  }

  lemma MixStep(s: seq<real>, layout: seq<Speaker>, left: bool, c: nat)
    requires c <= |layout| <= |s|
    ensures MixOf(s, layout, left, c) ==
      if c == |layout| then 0.0 else Times(s[c], Gain(layout[c], |s|, left)) + MixOf(s, layout, left, c + 1)
  {
  }

  lemma PlainGains(x: real)
    ensures Times(x, 0.0) == 0.0 && Times(x, 0.5) == x * 0.5 && Times(x, 1.0) == x
  {
  }

  function StereoAt(f: MixFormat, data: seq<Byte>, n: nat, i: nat): Stereo
    requires SupportedFormat(f) && HasFrames(f, data, n) && i < n
  {
    Downmix(seq(f.channels, c requires 0 <= c < f.channels => SampleAt(f, data, n, i, c)))
  }

  function Decoded(f: MixFormat, data: seq<Byte>, n: nat): (r: seq<Stereo>)
    requires SupportedFormat(f) && HasFrames(f, data, n)
  {
    seq(n, i requires 0 <= i < n => StereoAt(f, data, n, i))
  }

  // ---- resampling --------------------------------------------------------------------

  /** The input frame that output position `pos` falls into, kept inside the chunk. */
  function BaseIndex(n: nat, pos: real): (i: nat)
    requires n > 0 && pos >= 0.0
    ensures i < n
  {
    if pos.Floor >= n then n - 1 else pos.Floor
  }

  function NextIndex(n: nat, i: nat): (j: nat)
    requires i < n
    ensures j < n
  {
    if i + 1 < n then i + 1 else i
  }

  function Mix(a: real, b: real, frac: real): real { a * (1.0 - frac) + b * frac }

  function Blend(input: seq<Stereo>, pos: real): Stereo
    requires |input| > 0 && pos >= 0.0
  {
    var i := BaseIndex(|input|, pos);
    var j := NextIndex(|input|, i);
    var frac := pos - i as real;
    Stereo(Mix(input[i].left, input[j].left, frac), Mix(input[i].right, input[j].right, frac))
  }

  predicate Between(x: real, a: real, b: real) { a <= x <= b || b <= x <= a }

  /** Every output sample lies between the two input samples it blends, even when the position
      has run past the chunk: then both are the last sample. */
  lemma BlendIsBetween(input: seq<Stereo>, pos: real)
    requires |input| > 0 && pos >= 0.0
    ensures var i := BaseIndex(|input|, pos); var j := NextIndex(|input|, i);
      && Between(Blend(input, pos).left, input[i].left, input[j].left)
      && Between(Blend(input, pos).right, input[i].right, input[j].right)
  {
    var i := BaseIndex(|input|, pos);
    var j := NextIndex(|input|, i);
    var frac := pos - i as real;
    if pos.Floor < |input| - 1 {
      MixIsBetween(input[i].left, input[j].left, frac);
      MixIsBetween(input[i].right, input[j].right, frac);
    } else {
      MixOfEqual(input[i].left, frac);
      MixOfEqual(input[i].right, frac);
    }
  }

  lemma Share(frac: real, d: real)
    requires 0.0 <= frac <= 1.0
    ensures d >= 0.0 ==> 0.0 <= Times(frac, d) <= d
    ensures d <= 0.0 ==> d <= Times(frac, d) <= 0.0
  {
  }

  lemma MixShifts(a: real, d: real, frac: real)
    ensures Mix(a, a + d, frac) == a + Times(frac, d)
  {
  }

  lemma MixIsBetween(a: real, b: real, frac: real)
    requires 0.0 <= frac <= 1.0
    ensures Between(Mix(a, b, frac), a, b)
  {
    hide Times, Mix;
    var d := b - a;
    Share(frac, d);
    MixShifts(a, d, frac);
    assert a + d == b;
  }

  lemma MixOfEqual(a: real, frac: real)
    ensures Mix(a, a, frac) == a
  {
  }

  function Ratio(rate: nat): real
    requires rate > 0
  {
    SAMPLE_RATE_REAL / rate as real
  }

  /** How far one output frame advances the input position. */
  function Stride(rate: nat): (s: real)
    requires rate > 0
    ensures s > 0.0
  {
    1.0 / Ratio(rate)
  }

  function OutFrames(n: nat, rate: nat): (k: nat)
    requires rate > 0
  {
    if rate == SAMPLE_RATE then n
    else
      assert n as real * Ratio(rate) >= 0.0;
      (n as real * Ratio(rate) + 0.5).Floor
  }

  function Absolute(x: real): real { if x < 0.0 then -x else x }

  /** `out` frames instead of the exact n * ratio. */
  predicate Drifts(out: real, n: real, ratio: real, bound: real) { Absolute(out - Times(n, ratio)) <= bound }

  lemma OutFramesIsClose(n: nat, rate: nat)
    requires rate > 0
    ensures Drifts(OutFrames(n, rate) as real, n as real, Ratio(rate), 0.5)
  {
  }

  function Total(chunks: seq<nat>): nat { if chunks == [] then 0 else chunks[0] + Total(chunks[1..]) }

  function TotalOut(chunks: seq<nat>, rate: nat): nat
    requires rate > 0
  {
    if chunks == [] then 0 else OutFrames(chunks[0], rate) + TotalOut(chunks[1..], rate)
  }

  /** k chunks differ from the exact frame count by at most k/2 frames in all. */
  lemma {:induction false} DriftIsBounded(chunks: seq<nat>, rate: nat)
    requires rate > 0
    ensures Drifts(TotalOut(chunks, rate) as real, Total(chunks) as real, Ratio(rate), |chunks| as real * 0.5)
  {
    if chunks != [] {
      DriftIsBounded(chunks[1..], rate);
      OutFramesIsClose(chunks[0], rate);
      var out, n := OutFrames(chunks[0], rate) as real, chunks[0] as real;
      var outs, ns := TotalOut(chunks[1..], rate) as real, Total(chunks[1..]) as real;
      assert TotalOut(chunks, rate) as real == out + outs && Total(chunks) as real == n + ns;
      assert |chunks| as real * 0.5 == |chunks[1..]| as real * 0.5 + 0.5;
      hide OutFrames, Ratio, Drifts;
      DriftStep(out, outs, n, ns, Ratio(rate), |chunks[1..]| as real * 0.5);
    }
  }

  lemma DriftStep(out: real, outs: real, n: real, ns: real, ratio: real, bound: real)
    requires Drifts(out, n, ratio, 0.5) && Drifts(outs, ns, ratio, bound)
    ensures Drifts(out + outs, n + ns, ratio, bound + 0.5)
  {
  }

  /** The position kept for the next chunk. */
  function Phase(pos: real, n: nat): real
    requires n > 0 && pos >= 0.0
  {
    pos - (pos / n as real).Floor as real * n as real
  }

  lemma QuotientTimes(pos: real, d: real)
    requires d > 0.0
    ensures Times(pos / d, d) == pos
  {
  }

  /** The kept position lies inside a chunk and differs from the true one by whole chunks. */
  lemma PhaseInRange(pos: real, n: nat) returns (m: nat)
    requires n > 0 && pos >= 0.0
    ensures 0.0 <= Phase(pos, n) < n as real
    ensures pos == Phase(pos, n) + m as real * n as real
  {
    m := (pos / n as real).Floor;
    assert Phase(pos, n) == pos - Times(m as real, n as real);
    assert m as real * n as real == Times(m as real, n as real);
    hide Times, Phase;
    QuotientTimes(pos, n as real);
    ScaleStep(pos / n as real, m as real, n as real);
  }

  /** The kept position is where the stream goes on in the next chunk exactly when the last output
      frame ended in that chunk. */
  lemma StreamContinuesExactly(pos: real, n: nat)
    requires n > 0 && pos >= 0.0
    ensures Phase(pos, n) == pos - n as real <==> n as real <= pos < 2.0 * n as real
  {
    var m := PhaseInRange(pos, n);
    var whole := Times(m as real, n as real);
    assert m as real * n as real == whole;
    hide Times, Phase;
    if m >= 2 { TimesOrdered(2.0, m as real, n as real); }
    TimesSum(1.0, 1.0, n as real);
    if m == 1 { assert whole == n as real; }
    if m == 0 { assert whole == 0.0; }
  }

  /** The position of output frame i. */
  function PosAt(start: real, rate: nat, i: nat): real
    requires rate > 0
  {
    start + i as real * Stride(rate)
  }

  lemma PosAtLeast(start: real, rate: nat, i: nat)
    requires rate > 0 && start >= 0.0
    ensures PosAt(start, rate, i) >= 0.0
    ensures PosAt(start, rate, i + 1) == PosAt(start, rate, i) + Stride(rate)
  {
  }

  function BlendAt(input: seq<Stereo>, rate: nat, start: real, i: nat): Stereo
    requires rate > 0 && |input| > 0 && start >= 0.0
  {
    PosAtLeast(start, rate, i);
    Blend(input, PosAt(start, rate, i))
  }

  function Resampled(input: seq<Stereo>, rate: nat, start: real): (r: seq<Stereo>)
    requires rate > 0 && (|input| > 0 || rate == SAMPLE_RATE) && start >= 0.0
  {
    if rate == SAMPLE_RATE then input
    else
      var k := OutFrames(|input|, rate);
      seq(k, i requires 0 <= i < k => BlendAt(input, rate, start, i))
  }

  /** The point at x of the line that starts at `a` and rises by `b` per frame, for both channels. */
  function OnLine(a: Stereo, b: Stereo, x: real): Stereo {
    Stereo(a.left + Times(b.left, x), a.right + Times(b.right, x))
  }

  lemma MixOnLine(a: real, b: real, i: real, pos: real)
    ensures Mix(a + Times(b, i), a + Times(b, i + 1.0), pos - i) == a + Times(b, pos)
  {
    TimesSum(i, 1.0, b);
    TimesSum(i, pos - i, b);
    TimesCommute(b, i);
    TimesCommute(b, i + 1.0);
    TimesCommute(b, pos);
    hide Mix, Times;
    assert i + (pos - i) == pos;
    MixShifts(a + Times(b, i), b, pos - i);
  }

  /** Between two neighbouring samples the output lies on the line through them, at its position. */
  lemma BlendFollowsTheLine(input: seq<Stereo>, pos: real, i: nat, a: Stereo, b: Stereo)
    requires i + 1 < |input| && i as real <= pos <= (i + 1) as real
    requires input[i] == OnLine(a, b, i as real) && input[i + 1] == OnLine(a, b, (i + 1) as real)
    ensures Blend(input, pos) == OnLine(a, b, pos)
  {
    if pos == (i + 1) as real {
      BlendAtSample(input, i + 1);
    } else {
      assert BaseIndex(|input|, pos) == i;
      assert (i + 1) as real == i as real + 1.0;
      MixOnLine(a.left, b.left, i as real, pos);
      MixOnLine(a.right, b.right, i as real, pos);
      hide Mix, Times;
    }
  }

  lemma BlendAtSample(input: seq<Stereo>, p: nat)
    requires p < |input|
    ensures Blend(input, p as real) == input[p]
  {
  }

  lemma BlendBehindTheEnd(input: seq<Stereo>, pos: real)
    requires |input| > 0 && pos >= |input| as real - 1.0
    ensures Blend(input, pos) == input[|input| - 1]
  {
    MixOfEqual(input[|input| - 1].left, pos - (|input| - 1) as real);
    MixOfEqual(input[|input| - 1].right, pos - (|input| - 1) as real);
    hide Mix;
  }

  /** The place in the input that output frame k stands for. */
  function InputPosition(start: real, rate: nat, k: nat): real { start + k as real * (rate as real / 48000.0) }

  /** What the resampler computes, for every chunk and every output frame k. At the position of a
      sample it is that sample, between two samples it lies on the line through them, and from the
      last sample on it is the last sample. */
  lemma ResamplesTheLine(input: seq<Stereo>, rate: nat, start: real, k: nat, i: nat, a: Stereo, b: Stereo)
    requires rate > 0 && rate != SAMPLE_RATE && start >= 0.0 && k < OutFrames(|input|, rate) && i < |input|
    ensures var pos := InputPosition(start, rate, k); var r := Resampled(input, rate, start);
      && |r| == OutFrames(|input|, rate)
      && (pos == i as real ==> r[k] == input[i])
      && (pos >= |input| as real - 1.0 ==> r[k] == input[|input| - 1])
      && (i + 1 < |input| && i as real <= pos <= (i + 1) as real
          && input[i] == OnLine(a, b, i as real) && input[i + 1] == OnLine(a, b, (i + 1) as real)
          ==> r[k] == OnLine(a, b, pos))
  {
    hide PosAt, Blend, Resampled, OnLine, OutFrames, InputPosition;
    ResampledIsBlend(input, rate, start, k);
    var pos := InputPosition(start, rate, k);
    if pos == i as real { BlendAtSample(input, i); }
    if pos >= |input| as real - 1.0 { BlendBehindTheEnd(input, pos); }
    if i + 1 < |input| && i as real <= pos <= (i + 1) as real
       && input[i] == OnLine(a, b, i as real) && input[i + 1] == OnLine(a, b, (i + 1) as real) {
      BlendFollowsTheLine(input, pos, i, a, b);
    }
  }

  lemma ResampledIsBlend(input: seq<Stereo>, rate: nat, start: real, k: nat)
    requires rate > 0 && rate != SAMPLE_RATE && start >= 0.0 && k < OutFrames(|input|, rate) && |input| > 0
    ensures |Resampled(input, rate, start)| == OutFrames(|input|, rate)
    ensures 0.0 <= PosAt(start, rate, k) == InputPosition(start, rate, k)
    ensures Resampled(input, rate, start)[k] == Blend(input, InputPosition(start, rate, k))
  {
    PositionIs(start, rate, k);
    hide Blend, OutFrames, InputPosition;
  }

  lemma PositionIs(start: real, rate: nat, k: nat)
    requires rate > 0 && start >= 0.0
    ensures 0.0 <= PosAt(start, rate, k) == InputPosition(start, rate, k)
  {
    PosAtLeast(start, rate, k);
    assert Stride(rate) == rate as real / 48000.0;
    hide Stride;
  }

  /** A chunk on a line comes out on the same line, up to its last sample. */
  lemma LinesStayLines(input: seq<Stereo>, rate: nat, start: real, k: nat, a: Stereo, b: Stereo)
    requires rate > 0 && rate != SAMPLE_RATE && start >= 0.0 && k < OutFrames(|input|, rate) && |input| > 0
    requires forall i :: 0 <= i < |input| ==> input[i] == OnLine(a, b, i as real)
    ensures var pos := InputPosition(start, rate, k); var n := |input| as real;
      && |Resampled(input, rate, start)| == OutFrames(|input|, rate)
      && Resampled(input, rate, start)[k] == OnLine(a, b, if pos <= n - 1.0 then pos else n - 1.0)
  {
    var pos := InputPosition(start, rate, k);
    PositionIs(start, rate, k);
    var i := if pos >= |input| as real - 1.0 then |input| - 1 else pos.Floor;
    hide OnLine, Resampled, OutFrames, InputPosition, PosAt;
    ResamplesTheLine(input, rate, start, k, i, a, b);
  }

  function NextPhase(n: nat, rate: nat, start: real): real
    requires rate > 0 && (n > 0 || rate == SAMPLE_RATE) && start >= 0.0
  {
    if rate == SAMPLE_RATE then start
    else
      PosAtLeast(start, rate, OutFrames(n, rate));
      Phase(PosAt(start, rate, OutFrames(n, rate)), n)
  }

  /** In terms of the chunk: the position kept after it goes on where its last output frame ended. */
  predicate Continues(n: nat, rate: nat, start: real)
    requires rate > 0 && rate != SAMPLE_RATE && n > 0 && start >= 0.0
  {
    NextPhase(n, rate, start) == PosAt(start, rate, OutFrames(n, rate)) - n as real
  }

  lemma ChunkContinuesExactly(n: nat, rate: nat, start: real)
    requires rate > 0 && rate != SAMPLE_RATE && n > 0 && start >= 0.0
    ensures Continues(n, rate, start) <==>
      n as real <= PosAt(start, rate, OutFrames(n, rate)) < 2.0 * n as real
  {
    PosAtLeast(start, rate, OutFrames(n, rate));
    StreamContinuesExactly(PosAt(start, rate, OutFrames(n, rate)), n);
    hide PosAt, Phase, OutFrames;
  }

  /** 102 frames at 44.1 kHz from the start of a stream end just before the chunk does. The kept
      position does not wrap, and every output of the next 102 frames is their last sample. */
  lemma ChunkRepeatsItsLastSample(input: seq<Stereo>, i: nat)
    requires |input| == 102 && i < OutFrames(102, 44100)
    ensures NextPhase(102, 44100, 0.0) == 101.98125 && !Continues(102, 44100, 0.0)
    ensures var next := Resampled(input, 44100, NextPhase(102, 44100, 0.0));
      |next| == 111 && next[i] == input[101]
  {
    ShortOfTheEnd();
    LastSampleFrom(input, 101.98125, i);
  }

  lemma ShortOfTheEnd()
    ensures Stride(44100) == 0.91875 && OutFrames(102, 44100) == 111
    ensures NextPhase(102, 44100, 0.0) == 101.98125 && !Continues(102, 44100, 0.0)
  {
    assert Stride(44100) == 0.91875 && OutFrames(102, 44100) == 111;
    assert PosAt(0.0, 44100, 111) == 101.98125;
  }

  /** Behind the last sample of a chunk there is only the last sample. */
  lemma LastSampleFrom(input: seq<Stereo>, start: real, i: nat)
    requires |input| > 0 && start >= |input| as real - 1.0 && i < OutFrames(|input|, 44100)
    ensures |Resampled(input, 44100, start)| == OutFrames(|input|, 44100)
    ensures Resampled(input, 44100, start)[i] == input[|input| - 1]
  {
    PosAtLeast(start, 44100, i);
    var pos := PosAt(start, 44100, i);
    assert pos >= start;
    var last := input[|input| - 1];
    MixOfEqual(last.left, pos - (|input| - 1) as real);
    MixOfEqual(last.right, pos - (|input| - 1) as real);
    hide OutFrames, PosAt, Mix;
  }

  // ---- quantizing ------------------------------------------------------------------------

  function Clamp(x: real): real { if x < -1.0 then -1.0 else if x > 1.0 then 1.0 else x }

  /** Saturation in integer space, as encode_stereo does it. */
  function Saturate(s: real, max: int): int {
    if s >= max as real then max
    else if s <= -(max as real) - 1.0 then -max - 1
    else Truncate(s)
  }

  function Quantize16(x: real): int { Saturate(Clamp(x) * 32768.0, 32767) }
  function Quantize32(x: real): int { Saturate(Clamp(x) * 2147483648.0, 2147483647) }

  /** One frame of encode_stereo. */
  function Encode(s: Stereo, format: AudioFormat): Frame {
    match format
    case F32 => Float(s.left, s.right)
    case S16 => Pcm(Quantize16(s.left), Quantize16(s.right))
    case S32 => Pcm(Quantize32(s.left), Quantize32(s.right))
  }

  /** For any sample values, quantizing keeps the order and stays in the target range. */
  lemma QuantizersAreMonotoneInRange(x: real, y: real)
    requires x <= y
    ensures -32768 <= Quantize16(x) <= Quantize16(y) <= 32767
    ensures -2147483648 <= Quantize32(x) <= Quantize32(y) <= 2147483647
  {
  }

  /** `q` is `y` cut to a whole number towards zero, and kept from -full to full - 1. */
  predicate CutTowardsZero(y: real, full: int, q: int) {
    if y >= (full - 1) as real then q == full - 1
    else if y <= -(full as real) then q == -full
    else if y >= 0.0 then q as real <= y < q as real + 1.0
    else q as real - 1.0 < y <= q as real
  }

  /** A sample of any value is quantized by cutting it at full scale. */
  lemma QuantizesTowardsZero(x: real)
    ensures CutTowardsZero(x * 32768.0, 32768, Quantize16(x))
    ensures CutTowardsZero(x * 2147483648.0, 2147483648, Quantize32(x))
  {
  }

  /** 16-bit samples come back unchanged, 24-bit samples come back scaled by 256. */
  lemma PcmIsExact(v: int)
    ensures -32768 <= v <= 32767 ==> Quantize16(v as real / 32768.0) == v
    ensures -8388608 <= v <= 8388607 ==> Quantize32(v as real / 8388608.0) == v * 256
  {
  }

  // ---- the chunk ----------------------------------------------------------------------------

  /** The frames convert_chunk_to_ring pushes for one chunk. */
  function Converted(f: MixFormat, data: seq<Byte>, n: nat, start: real, format: AudioFormat): (r: seq<Frame>)
    requires SupportedFormat(f) && HasFrames(f, data, n) && (n > 0 || f.rate == SAMPLE_RATE) && start >= 0.0
  {
    var s := Resampled(Decoded(f, data, n), f.rate, start);
    seq(|s|, i requires 0 <= i < |s| => Encode(s[i], format))
  }

  /** Little-endian signed sample of `bytes` bytes. */
  function SignedAt(data: seq<Byte>, at: nat, bytes: nat): int
    requires at + bytes <= |data| && bytes <= 4
  {
    Signed(Little(data[at..at + bytes]), if bytes == 2 then 0x1_0000 else 0x100_0000)
  }

  lemma LittleBound(p: seq<Byte>)
    ensures |p| == 2 ==> Little(p) < 0x1_0000
    ensures |p| == 3 ==> Little(p) < 0x100_0000
  {
    if |p| == 2 {
      assert Little(p) == p[0] + 256 * Little(p[1..]) && Little(p[1..]) == p[1] + 256 * Little(p[1..][1..]);
    } else if |p| == 3 {
      assert Little(p) == p[0] + 256 * Little(p[1..]) && Little(p[1..]) == p[1] + 256 * Little(p[1..][1..]);
      assert Little(p[1..][1..]) == p[2] + 256 * Little(p[1..][1..][1..]);
    }
  }

  /** A sample of the input as an integer. */
  function InputAt(f: MixFormat, data: seq<Byte>, n: nat, i: nat, c: nat): int
    requires HasFrames(f, data, n) && i < n && c < f.channels && f.sampleBytes <= 4
  {
    SampleInBounds(f, data, n, i, c);
    SignedAt(data, Offset(f, i, c), f.sampleBytes)
  }

  lemma SamplePasses(f: MixFormat, data: seq<Byte>, n: nat, i: nat, c: nat)
    requires HasFrames(f, data, n) && i < n && c < f.channels
    requires !f.isFloat && (f.sampleBytes == 2 || f.sampleBytes == 3)
    ensures f.sampleBytes == 2 ==> Quantize16(SampleAt(f, data, n, i, c)) == InputAt(f, data, n, i, c)
    ensures f.sampleBytes == 3 ==> Quantize32(SampleAt(f, data, n, i, c)) == InputAt(f, data, n, i, c) * 256
  {
    SampleInBounds(f, data, n, i, c);
    var at := Offset(f, i, c);
    LittleBound(data[at..at + f.sampleBytes]);
    PcmIsExact(InputAt(f, data, n, i, c));
    hide Quantize16, Quantize32;
  }

  lemma StereoIsBothSamples(f: MixFormat, data: seq<Byte>, n: nat, i: nat)
    requires SupportedFormat(f) && HasFrames(f, data, n) && i < n && f.channels == 2
    ensures StereoAt(f, data, n, i) == Stereo(SampleAt(f, data, n, i, 0), SampleAt(f, data, n, i, 1))
  {
  }

  /** For a stereo 48 kHz mix, 16-bit input to S16 pushes exactly the input samples and packed
      24-bit input to S32 pushes exactly the input samples times 256. */
  lemma NativeFormatsPassThrough(f: MixFormat, data: seq<Byte>, n: nat, start: real, i: nat)
    requires SupportedFormat(f) && HasFrames(f, data, n) && start >= 0.0 && i < n
    requires !f.isFloat && f.channels == 2 && f.rate == SAMPLE_RATE
    requires f.sampleBytes == 2 || f.sampleBytes == 3
    ensures |Converted(f, data, n, start, S16)| == |Converted(f, data, n, start, S32)| == n
    ensures var l := InputAt(f, data, n, i, 0); var r := InputAt(f, data, n, i, 1);
      if f.sampleBytes == 2 then Converted(f, data, n, start, S16)[i] == Pcm(l, r)
      else Converted(f, data, n, start, S32)[i] == Pcm(l * 256, r * 256)
  {
    SamplePasses(f, data, n, i, 0);
    SamplePasses(f, data, n, i, 1);
    StereoIsBothSamples(f, data, n, i);
    hide SampleAt, InputAt, StereoAt, Quantize16, Quantize32;
    assert Decoded(f, data, n)[i] == StereoAt(f, data, n, i);
  }
}
