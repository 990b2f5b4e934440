/**
 * Channel-layout conversion between a capture and a render device
 * (`convert_channels` and `formats_need_conversion` in `main.rs`).
 *
 * Buffers are interleaved: channel `ch` of frame `f` in an `n`-channel
 * buffer sits at index `f * n + ch`.  Sample values are an opaque type `S`;
 * the stereo-to-mono average is the parameter `mix`.
 */
module Convert {
  import opened RingBuffer
  import opened AudioStream

  /** Index of channel `ch` of frame `f` in a buffer of `n` channels. */
  function At(f: nat, n: nat, ch: nat): nat {
    f * n + ch
  }

  lemma MulMono(n: nat, a: nat, b: nat)
    requires a <= b
    ensures n * a <= n * b
  {
    if a < b {
      MulStep(n, a, b);
    }
  }

  /** An index splits back into its frame and channel. */
  lemma FrameSplit(f: nat, n: nat, ch: nat)
    requires ch < n
    ensures At(f, n, ch) / n == f && At(f, n, ch) % n == ch
  {
    ModUnique(At(f, n, ch), n, f, ch);
  }

  /** Every channel of a frame below `frames` lies inside `frames * n` samples. */
  lemma FrameFits(f: nat, frames: nat, n: nat, ch: nat)
    requires f < frames && ch < n
    ensures At(f, n, ch) < frames * n
  {
    MulStep(n, f, frames);
  }

  /** Whole frames of `len` samples fit in `len`. */
  lemma WholeFrames(len: nat, n: nat)
    requires n > 0
    ensures (len / n) * n <= len
  {
  }

  /** An index below `frames * n` is a channel of a frame below `frames`. */
  lemma IndexSplits(i: nat, frames: nat, n: nat)
    requires i < frames * n
    ensures n > 0 && i / n < frames && i % n < n && i == At(i / n, n, i % n)
  {
    if n > 0 && i / n >= frames {
      MulMono(n, frames, i / n);
      assert false;
    }
  }

  /** Sample `ch` of output frame `f` (the body of `convert_channels`'s frame loop). */
  function Sample<S>(input: seq<S>, inCh: nat, outCh: nat, mix: (S, S) -> S, f: nat, ch: nat): S
    requires inCh > 0 && f < |input| / inCh && ch < outCh
  {
    WholeFrames(|input|, inCh);
    FrameFits(f, |input| / inCh, inCh, 0);
    if outCh <= inCh then
      if inCh == 2 && outCh == 1 then
        FrameFits(f, |input| / inCh, inCh, 1);
        mix(input[At(f, inCh, 0)], input[At(f, inCh, 1)])
      else
        FrameFits(f, |input| / inCh, inCh, ch);
        input[At(f, inCh, ch)]
    else if ch < inCh then
      FrameFits(f, |input| / inCh, inCh, ch);
      input[At(f, inCh, ch)]
    else
      input[At(f, inCh, 0)]
  }

  /** The whole converted buffer: every whole input frame becomes one output frame. */
  function Converted<S>(input: seq<S>, inCh: nat, outCh: nat, mix: (S, S) -> S): (out: seq<S>)
    requires inCh > 0
    ensures |out| == (|input| / inCh) * outCh
  {
    var frames := |input| / inCh;
    seq(frames * outCh, i requires 0 <= i < frames * outCh =>
      IndexSplits(i, frames, outCh);
      Sample(input, inCh, outCh, mix, i / outCh, i % outCh))
  }

  /**
   * Channel `ch` of output frame `f`: the `mix` of left and right for stereo
   * to mono, otherwise the same channel of the input frame, with channel 0
   * repeated for the channels an upmix adds.
   */
  lemma ConvertedFrame<S>(input: seq<S>, inCh: nat, outCh: nat, mix: (S, S) -> S, f: nat, ch: nat)
    requires inCh > 0 && f < |input| / inCh && ch < outCh
    ensures At(f, outCh, ch) < |Converted(input, inCh, outCh, mix)|
    ensures At(f, inCh, inCh - 1) < |input|
    ensures var out := Converted(input, inCh, outCh, mix)[At(f, outCh, ch)];
      && (inCh == 2 && outCh == 1 ==> out == mix(input[At(f, 2, 0)], input[At(f, 2, 1)]))
      && (outCh <= inCh && !(inCh == 2 && outCh == 1) ==> out == input[At(f, inCh, ch)])
      && (inCh < outCh && ch < inCh ==> out == input[At(f, inCh, ch)])
      && (inCh < outCh && inCh <= ch ==> out == input[At(f, inCh, 0)])
  {
    var frames := |input| / inCh;
    FrameFits(f, frames, outCh, ch);
    FrameFits(f, frames, inCh, inCh - 1);
    WholeFrames(|input|, inCh);
    FrameSplit(f, outCh, ch);
  }

  /** With equal channel counts the buffer is copied, less any partial frame at its end. */
  lemma PassThrough<S>(input: seq<S>, n: nat, mix: (S, S) -> S)
    requires n > 0
    ensures Converted(input, n, n, mix) == input[..(|input| / n) * n]
  {
    var frames := |input| / n;
    var out := Converted(input, n, n, mix);
    WholeFrames(|input|, n);
    forall i | 0 <= i < frames * n
      ensures out[i] == input[i]
    {
      IndexSplits(i, frames, n);
      ConvertedFrame(input, n, n, mix, i / n, i % n);
    }
  }

  /**
   * Dropping the channels an upmix added gives the input back (less any
   * partial frame); mono to stereo is excluded, as its way back averages.
   */
  lemma UpmixThenDownmix<S>(input: seq<S>, inCh: nat, outCh: nat, mix: (S, S) -> S)
    requires 0 < inCh < outCh && !(inCh == 1 && outCh == 2)
    ensures Converted(Converted(input, inCh, outCh, mix), outCh, inCh, mix) == input[..(|input| / inCh) * inCh]
  {
    var frames := |input| / inCh;
    var up := Converted(input, inCh, outCh, mix);
    var down := Converted(up, outCh, inCh, mix);
    ModUnique(|up|, outCh, frames, 0);
    assert |up| / outCh == frames;
    assert |down| == frames * inCh;
    WholeFrames(|input|, inCh);
    forall i | 0 <= i < frames * inCh
      ensures down[i] == input[i]
    {
      IndexSplits(i, frames, inCh);
      var f, ch := i / inCh, i % inCh;
      ConvertedFrame(up, outCh, inCh, mix, f, ch);
      ConvertedFrame(input, inCh, outCh, mix, f, ch);
    }
  }

  /** Pushing the next sample of `spec` extends a prefix of it by one. */
  lemma PrefixStep<S>(spec: seq<S>, output: seq<S>, k: nat, x: S)
    requires k < |spec| && output == spec[..k] && spec[k] == x
    ensures output + [x] == spec[..k + 1]
  {
  }

  /** Pushes the `outCh` samples of frame `frame` that are copied from input channels. */
  method CopyFrame<S>(input: seq<S>, inCh: nat, outCh: nat, mix: (S, S) -> S, frame: nat, output: seq<S>)
    returns (extended: seq<S>)
    requires inCh > 0 && frame < |input| / inCh && !(inCh == 2 && outCh == 1)
    requires frame * outCh + outCh <= |Converted(input, inCh, outCh, mix)|
    requires output == Converted(input, inCh, outCh, mix)[..frame * outCh]
    ensures extended == Converted(input, inCh, outCh, mix)[..frame * outCh + outCh]
  {
    ghost var spec := Converted(input, inCh, outCh, mix);
    var inStart := frame * inCh;
    FrameFits(frame, |input| / inCh, inCh, 0);
    WholeFrames(|input|, inCh);
    extended := output;
    for ch := 0 to outCh
      invariant extended == spec[..frame * outCh + ch]
    {
      ConvertedFrame(input, inCh, outCh, mix, frame, ch);
      var x;
      if ch < inCh {
        FrameFits(frame, |input| / inCh, inCh, ch);
        x := input[inStart + ch];
      } else {
        x := input[inStart];
      }
      PrefixStep(spec, extended, frame * outCh + ch, x);
      extended := extended + [x];
    }
  }

  /** `convert_channels`: clears `output` and pushes the converted frames in order. */
  method ConvertChannels<S>(input: seq<S>, inCh: nat, outCh: nat, mix: (S, S) -> S) returns (output: seq<S>)
    requires inCh > 0
    ensures output == Converted(input, inCh, outCh, mix)
  {
    ghost var spec := Converted(input, inCh, outCh, mix);
    var frames := |input| / inCh;
    output := [];
    for frame := 0 to frames
      invariant frame * outCh <= |spec|
      invariant output == spec[..frame * outCh]
    {
      MulStep(outCh, frame, frames);
      assert (frame + 1) * outCh == frame * outCh + outCh;
      if inCh == 2 && outCh == 1 {
        var inStart := frame * inCh;
        ConvertedFrame(input, inCh, outCh, mix, frame, 0);
        var x := mix(input[inStart], input[inStart + 1]);
        PrefixStep(spec, output, frame, x);
        output := output + [x];
      } else {
        output := CopyFrame(input, inCh, outCh, mix, frame, output);
      }
    }
    assert spec[..frames * outCh] == spec;
  }

  /**
   * `formats_need_conversion`: no conversion is needed exactly when the
   * formats agree on everything but sample width and frame size.
   */
  function FormatsNeedConversion(capture: AudioFormat, render: AudioFormat): (need: bool)
    ensures !need <==> capture.(bitsPerSample := render.bitsPerSample, blockAlign := render.blockAlign) == render
  {
    capture.sampleRate != render.sampleRate || capture.channels != render.channels
  }

  lemma ConversionSymmetric(a: AudioFormat, b: AudioFormat)
    ensures FormatsNeedConversion(a, b) == FormatsNeedConversion(b, a)
    ensures !FormatsNeedConversion(a, a)
  {
  }
}
