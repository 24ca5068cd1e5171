/** The loops of the WASAPI sample pipeline: they fill one buffer with the left samples in its
    first half and the right samples behind them, resample it, encode it and push the frames. */
module AudioCapture {
  import opened Arithmetic
  import opened AudioConvert
  import opened AudioQueue
  import opened AudioRing

  /** The buffer holds the first `upTo` of n stereo frames. */
  ghost predicate Holds(buffer: array<real>, n: nat, s: seq<Stereo>, upTo: nat)
    reads buffer
  {
    && upTo <= |s| == n && 2 * n <= buffer.Length
    && forall i :: 0 <= i < upTo ==> buffer[i] == s[i].left && buffer[n + i] == s[i].right
  }

  function Flatten<T>(rows: seq<seq<T>>): seq<T> {
    if rows == [] then [] else Flatten(rows[..|rows| - 1]) + rows[|rows| - 1]
  }

  ghost predicate Rows<T>(rows: seq<seq<T>>, width: nat) { forall i :: 0 <= i < |rows| ==> |rows[i]| == width }

  /** Where row i starts in an interleaved buffer. */
  function RowStart(i: nat, width: nat): nat { i * width }

  lemma RowStarts(i: nat, n: nat, width: nat)
    ensures RowStart(0, width) == 0 && RowStart(i + 1, width) == RowStart(i, width) + width
    ensures i + 1 <= n ==> RowStart(i + 1, width) <= RowStart(n, width)
  {
    if i + 1 <= n { TimesMonotone(i + 1, n, width); }
  }

  lemma {:induction false} FlattenLength<T>(rows: seq<seq<T>>, width: nat)
    requires Rows(rows, width)
    ensures |Flatten(rows)| == RowStart(|rows|, width)
  {
    if rows == [] {
      RowStarts(0, 0, width);
    } else {
      var n := |rows| - 1;
      FlattenLength(rows[..n], width);
      RowStarts(n, n + 1, width);
      hide RowStart;
    }
  }

  /** Row i of an interleaved buffer. */
  lemma {:induction false} RowAt<T>(rows: seq<seq<T>>, width: nat, i: nat)
    requires Rows(rows, width) && i < |rows|
    ensures var at := RowStart(i, width);
      at + width <= |Flatten(rows)| && Flatten(rows)[at..at + width] == rows[i]
  {
    var n := |rows| - 1;
    FlattenLength(rows[..n], width);
    if i < n { RowAt(rows[..n], width, i); }
    hide RowStart, Rows;
    assert Flatten(rows) == Flatten(rows[..n]) + rows[n];
    assert i < n ==> rows[..n][i] == rows[i];
  }

  /** The decoded samples of all channels, frame by frame. */
  function Channels(f: MixFormat, data: seq<Byte>, n: nat): (r: seq<seq<real>>)
    requires SupportedFormat(f) && HasFrames(f, data, n)
    ensures |r| == n && Rows(r, f.channels)
  {
    seq(n, i requires 0 <= i < n => seq(f.channels, c requires 0 <= c < f.channels => SampleAt(f, data, n, i, c)))
  }

  /** One frame of downmix_to_stereo, starting at index `at`. */
  method DownmixFrame(input: array<real>, at: nat, channels: nat) returns (l: real, r: real)
    requires channels > 0 && at + channels <= input.Length
    ensures Stereo(l, r) == Downmix(input[at..at + channels])
  {
    if channels == 1 { l, r := input[at], input[at]; }
    else if channels == 2 { l, r := input[at], input[at + 1]; }
    else if channels == 4 {
      l := (input[at] + input[at + 2]) * 0.5;
      r := (input[at + 1] + input[at + 3]) * 0.5;
    } else if channels == 6 {
      l := input[at] + input[at + 2] * 0.5 + input[at + 4] * 0.5;
      r := input[at + 1] + input[at + 2] * 0.5 + input[at + 5] * 0.5;
    } else if channels == 8 {
      l := input[at] + input[at + 2] * 0.5 + input[at + 4] * 0.5 + input[at + 6] * 0.5;
      r := input[at + 1] + input[at + 2] * 0.5 + input[at + 5] * 0.5 + input[at + 7] * 0.5;
    } else {
      l, r := input[at], input[at + 1];
    }
  }

  /** downmix_to_stereo: `input` interleaves the channels of n frames. */
  method DownmixToStereo(input: array<real>, channels: nat, n: nat, ghost frames: seq<seq<real>>, buffer: array<real>)
    requires channels > 0 && |frames| == n && Rows(frames, channels)
    requires input[..] == Flatten(frames) && 2 * n <= buffer.Length && input != buffer
    modifies buffer
    ensures Holds(buffer, n, seq(n, i requires 0 <= i < n => Downmix(frames[i])), n)
  {
    hide Downmix, Flatten;
    for i := 0 to n
      invariant input[..] == Flatten(frames)
      invariant Holds(buffer, n, seq(n, j requires 0 <= j < n => Downmix(frames[j])), i)
    {
      RowAt(frames, channels, i);
      var at := RowStart(i, channels);
      assert input[at..at + channels] == input[..][at..at + channels];
      var l, r := DownmixFrame(input, at, channels);
      buffer[i] := l;
      buffer[n + i] := r;
    }
  }

  /** Decodes a stereo chunk, or decodes all channels and mixes them down. */
  method DecodeChunk(f: MixFormat, data: seq<Byte>, n: nat) returns (buffer: array<real>)
    requires SupportedFormat(f) && HasFrames(f, data, n)
    ensures fresh(buffer) && Holds(buffer, n, Decoded(f, data, n), n)
  {
    buffer := new real[(n + 1) * 2];
    if f.channels != 2 {
      MixedDown(f, data, n);
      hide Flatten, Channels, Downmix, Decoded, HasFrames, Holds;
      var mix := DecodeAll(f, data, n);
      DownmixToStereo(mix, f.channels, n, Channels(f, data, n), buffer);
    } else {
      hide SampleAt;
      for i := 0 to n
        invariant Holds(buffer, n, Decoded(f, data, n), i)
      {
        StereoIsBothSamples(f, data, n, i);
        buffer[i] := SampleAt(f, data, n, i, 0);
        buffer[n + i] := SampleAt(f, data, n, i, 1);
      }
    }
  }

  lemma MixedDown(f: MixFormat, data: seq<Byte>, n: nat)
    requires SupportedFormat(f) && HasFrames(f, data, n) && f.channels != 2
    ensures Decoded(f, data, n) == seq(n, i requires 0 <= i < n => Downmix(Channels(f, data, n)[i]))
  {
    hide SampleAt, Downmix;
  }

  /** The nested decoding loops for a mix that is not stereo. */
  method DecodeAll(f: MixFormat, data: seq<Byte>, n: nat) returns (mix: array<real>)
    requires SupportedFormat(f) && HasFrames(f, data, n)
    ensures fresh(mix) && mix[..] == Flatten(Channels(f, data, n))
  {
    mix := new real[RowStart(n, f.channels)];
    ghost var rows := Channels(f, data, n);
    RowStarts(0, n, f.channels);
    hide Channels, Flatten, HasFrames, SampleAt, RowStart;
    for i := 0 to n
      invariant RowStart(i, f.channels) <= mix.Length && mix[..RowStart(i, f.channels)] == Flatten(rows[..i])
    {
      RowsEnd(rows, i);
      RowStarts(i, n, f.channels);
      DecodeFrame(f, data, n, i, mix, RowStart(i, f.channels));
    }
    assert rows[..n] == rows && mix[..RowStart(n, f.channels)] == mix[..];
  }

  lemma RowsEnd<T>(rows: seq<seq<T>>, i: nat)
    requires i < |rows|
    ensures Flatten(rows[..i + 1]) == Flatten(rows[..i]) + rows[i]
    ensures Flatten(rows[..0]) == []
  {
    assert rows[..i + 1][..i] == rows[..i];
  }

  /** The inner loop: the channels of frame i, stored from index `at` on. */
  method DecodeFrame(f: MixFormat, data: seq<Byte>, n: nat, i: nat, mix: array<real>, at: nat)
    requires SupportedFormat(f) && HasFrames(f, data, n) && i < n && at + f.channels <= mix.Length
    modifies mix
    ensures mix[..at + f.channels] == old(mix[..at]) + Channels(f, data, n)[i]
  {
    hide SampleAt;
    for c := 0 to f.channels
      invariant mix[..at] == old(mix[..at])
      invariant forall d :: at <= d < at + c ==> mix[d] == SampleAt(f, data, n, i, d - at)
    {
      mix[at + c] := SampleAt(f, data, n, i, c);
    }
  }

  /** The resampling loop: `pos` walks over the chunk in steps of 1/ratio. */
  method Resample(input: array<real>, n: nat, ghost s: seq<Stereo>, rate: nat, start: real)
    returns (output: array<real>, phase: real)
    requires n > 0 && rate > 0 && rate != SAMPLE_RATE && start >= 0.0
    requires Holds(input, n, s, n)
    ensures fresh(output) && Holds(output, OutFrames(n, rate), Resampled(s, rate, start), OutFrames(n, rate))
    ensures phase == NextPhase(n, rate, start)
  {
    var k := OutFrames(n, rate);
    ghost var r := Resampled(s, rate, start);
    hide PosAt, Stride, OutFrames, Phase, Blend, Resampled;
    output := new real[(k + 1) * 2];
    var pos := start;
    StartsAt(start, rate);
    for i := 0 to k
      invariant pos == PosAt(start, rate, i)
      invariant Holds(output, k, r, i)
    {
      PosAtLeast(start, rate, i);
      ResampledAt(s, rate, start, i);
      var left, right := BlendFrame(input, n, s, pos);
      StoreFrame(output, k, r, i, left, right);
      pos := pos + Stride(rate);
    }
    PosAtLeast(start, rate, k);
    phase := Phase(pos, n);
  }

  lemma ResampledAt(s: seq<Stereo>, rate: nat, start: real, i: nat)
    requires |s| > 0 && rate > 0 && rate != SAMPLE_RATE && start >= 0.0 && i < OutFrames(|s|, rate)
    ensures |Resampled(s, rate, start)| == OutFrames(|s|, rate)
    ensures PosAt(start, rate, i) >= 0.0 && Resampled(s, rate, start)[i] == Blend(s, PosAt(start, rate, i))
  {
  }

  method StoreFrame(buffer: array<real>, n: nat, ghost s: seq<Stereo>, i: nat, l: real, r: real)
    requires i < n && Holds(buffer, n, s, i) && Stereo(l, r) == s[i]
    modifies buffer
    ensures Holds(buffer, n, s, i + 1)
  {
    buffer[i] := l;
    buffer[n + i] := r;
  }

  /** One output frame: linear interpolation between two neighbours inside the chunk. */
  method BlendFrame(input: array<real>, n: nat, ghost s: seq<Stereo>, pos: real) returns (l: real, r: real)
    requires n > 0 && pos >= 0.0 && Holds(input, n, s, n)
    ensures Stereo(l, r) == Blend(s, pos)
  {
    var idx := pos.Floor;
    if idx >= n { idx := n - 1; }
    var frac := pos - idx as real;
    var idx2 := if idx + 1 < n then idx + 1 else idx;
    hide Mix;
    l := Mix(input[idx], input[idx2], frac);
    r := Mix(input[n + idx], input[n + idx2], frac);
  }

  lemma StartsAt(start: real, rate: nat)
    requires rate > 0
    ensures PosAt(start, rate, 0) == start
  {
  }

  /** encode_stereo. */
  method EncodeStereo(input: array<real>, n: nat, ghost s: seq<Stereo>, format: AudioFormat) returns (out: array<Frame>)
    requires Holds(input, n, s, n)
    ensures fresh(out) && out[..] == seq(n, i requires 0 <= i < n => Encode(s[i], format))
  {
    out := new Frame[n](_ => Pcm(0, 0));
    for i := 0 to n
      invariant forall j :: 0 <= j < i ==> out[j] == Encode(s[j], format)
    {
      match format {
        case F32 => out[i] := Float(input[i], input[n + i]);
        case S16 => out[i] := Pcm(Quantize16(input[i]), Quantize16(input[n + i]));
        case S32 => out[i] := Pcm(Quantize32(input[i]), Quantize32(input[n + i]));
      }
    }
  }

  /** The conversion state of a capture device around its ring. */
  class Device {
    const ring: Ring<Frame>
    const format: AudioFormat
    var resamplePos: real

    constructor (ring: Ring<Frame>, format: AudioFormat)
      ensures this.ring == ring && this.format == format && resamplePos == 0.0
    {
      this.ring, this.format, resamplePos := ring, format, 0.0;
    }

    /** convert_chunk_to_ring: the converted frames go behind the held ones, the oldest frames
        make room, and the resampling phase stays usable for the next chunk. */
    method ConvertChunk(f: MixFormat, data: seq<Byte>, n: nat) returns (pushed: nat)
      requires ring.Valid() && SupportedFormat(f) && HasFrames(f, data, n) && resamplePos >= 0.0
      requires n > 0 || f.rate == SAMPLE_RATE
      modifies this, ring`head, ring`count, ring.ring
      ensures ring.Valid()
      ensures ring.Contents() ==
                Newest(old(ring.Contents()) + Converted(f, data, n, old(resamplePos), format), ring.ring.Length)
      ensures resamplePos == NextPhase(n, f.rate, old(resamplePos)) && resamplePos >= 0.0
      ensures pushed == OutFrames(n, f.rate)
    {
      var stereo := DecodeChunk(f, data, n);
      ghost var s := Decoded(f, data, n);
      var outFrames := n;
      if f.rate != SAMPLE_RATE {
        outFrames := OutFrames(n, f.rate);
        var resampled, phase := Resample(stereo, n, s, f.rate, resamplePos);
        PosAtLeast(resamplePos, f.rate, outFrames);
        ghost var _ := PhaseInRange(PosAt(resamplePos, f.rate, outFrames), n);
        resamplePos := phase;
        stereo := resampled;
      }
      ghost var r := Resampled(s, f.rate, old(resamplePos));
      var encoded := EncodeStereo(stereo, outFrames, r, format);
      assert encoded[..] == Converted(f, data, n, old(resamplePos), format);
      ring.PushAll(encoded[..]);
      pushed := outFrames;
    }

    /** The end of wasapi_reopen_endpoint: nothing of the old endpoint stays. */
    method ForgetEndpoint()
      requires ring.Valid()
      modifies this, ring`head, ring`count
      ensures ring.Valid() && ring.Contents() == [] && resamplePos == 0.0
    {
      ring.Flush();
      resamplePos := 0.0;
    }
  }
}
