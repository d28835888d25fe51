/** The FLAC input adapter: whatever frames the decoder produces are handed to the encoder
    in whatever amounts it asks for, through one buffer holding a single frame. */
module FlacFile {
  import opened Arithmetic
  import opened Options
  import Sequences
  import Masks

  /** One decoded frame: pcm[c][t] is sample t of channel c. */
  datatype Frame = Frame(bitsPerSample: nat, blocksize: nat, pcm: seq<seq<int>>)

  /** One call of the decoder's process_single: the frame it passed to the write callback, if
      any, and whether it failed or reached the end of the stream. */
  datatype DecoderStep = DecoderStep(frame: Option<Frame>, stop: bool)

  /** One sample of every output channel. */
  type Row = seq<real>

  predicate FrameOk(f: Frame, channels: nat) {
    && f.bitsPerSample >= 1
    && |f.pcm| == channels
    && forall c :: 0 <= c < channels ==> |f.pcm[c]| == f.blocksize
  }

  predicate StepsOk(steps: seq<DecoderStep>, channels: nat) {
    && 1 <= channels <= 8
    && forall k :: 0 <= k < |steps| && steps[k].frame.Some? ==> FrameOk(steps[k].frame.value, channels)
  }

  // ------------------------------------------------------- channel order

  /** Output channel i is taken from input channel WavPermute(channels)[i]. */
  function WavPermute(channels: nat): (p: seq<nat>)
    requires 1 <= channels <= 8
    ensures |p| == channels && forall i :: 0 <= i < channels ==> p[i] < channels
  {
    match channels
    case 1 => [0]
    case 2 => [0, 1]
    case 3 => [0, 2, 1]
    case 4 => [0, 1, 2, 3]
    case 5 => [0, 2, 1, 3, 4]
    case 6 => [0, 2, 1, 4, 5, 3]
    case 7 => [0, 2, 1, 4, 5, 6, 3]
    case _ => [0, 2, 1, 6, 7, 4, 5, 3]
  }

  datatype Speaker = Mono | FrontLeft | FrontRight | Center | BackLeft | BackRight
    | BackCenter | SideLeft | SideRight | LowFrequency

  /** Channel assignment of FLAC frames, section 9.1.3 of RFC 9639. */
  function FlacSpeakers(channels: nat): seq<Speaker> {
    match channels
    case 1 => [Mono]
    case 2 => [FrontLeft, FrontRight]
    case 3 => [FrontLeft, FrontRight, Center]
    case 4 => [FrontLeft, FrontRight, BackLeft, BackRight]
    case 5 => [FrontLeft, FrontRight, Center, BackLeft, BackRight]
    case 6 => [FrontLeft, FrontRight, Center, LowFrequency, BackLeft, BackRight]
    case 7 => [FrontLeft, FrontRight, Center, LowFrequency, BackCenter, SideLeft, SideRight]
    case 8 => [FrontLeft, FrontRight, Center, LowFrequency, BackLeft, BackRight, SideLeft, SideRight]
    case _ => []
  }

  /** Output channel order of Vorbis, section 4.3.9 of the Vorbis I specification. */
  function VorbisSpeakers(channels: nat): seq<Speaker> {
    match channels
    case 1 => [Mono]
    case 2 => [FrontLeft, FrontRight]
    case 3 => [FrontLeft, Center, FrontRight]
    case 4 => [FrontLeft, FrontRight, BackLeft, BackRight]
    case 5 => [FrontLeft, Center, FrontRight, BackLeft, BackRight]
    case 6 => [FrontLeft, Center, FrontRight, BackLeft, BackRight, LowFrequency]
    case 7 => [FrontLeft, Center, FrontRight, SideLeft, SideRight, BackCenter, LowFrequency]
    case 8 => [FrontLeft, Center, FrontRight, SideLeft, SideRight, BackLeft, BackRight, LowFrequency]
    case _ => []
  }

  /** The table drops and doubles no channel. */
  lemma {:induction false} PermuteIsBijection(channels: nat)
    requires 1 <= channels <= 8
    ensures forall i, j :: 0 <= i < j < channels ==> WavPermute(channels)[i] != WavPermute(channels)[j]
    ensures forall c: nat :: c < channels ==> c in WavPermute(channels)
  {
    var p := WavPermute(channels);
    assert p[0] == 0;
    if channels >= 2 { assert 1 in {p[1], p[if channels > 2 then 2 else 1]}; }
    forall c: nat | c < channels
      ensures c in p
    {
      match channels
      case 1 => case 2 => assert p[c] == c;
      case 3 => assert p[1] == 2 && p[2] == 1;
      case 4 => assert p[c] == c;
      case 5 => assert p[1] == 2 && p[2] == 1 && p[3] == 3 && p[4] == 4;
      case 6 => assert p[1] == 2 && p[2] == 1 && p[3] == 4 && p[4] == 5 && p[5] == 3;
      case 7 => assert p[1] == 2 && p[2] == 1 && p[3] == 4 && p[4] == 5 && p[5] == 6 && p[6] == 3;
      case _ => assert p[1] == 2 && p[2] == 1 && p[3] == 6 && p[4] == 7 && p[5] == 4 && p[6] == 5 && p[7] == 3;
    }
  }

  /** The table puts every speaker in its Vorbis place except for seven channels, where the
      back and side speakers are rotated. */
  lemma {:induction false} VorbisOrderExceptSeven(channels: nat)
    requires 1 <= channels <= 8
    ensures |FlacSpeakers(channels)| == |VorbisSpeakers(channels)| == channels
    ensures (forall i :: 0 <= i < channels ==>
               FlacSpeakers(channels)[WavPermute(channels)[i]] == VorbisSpeakers(channels)[i])
       <==> channels != 7
  {
    var p, flac, vorbis := WavPermute(channels), FlacSpeakers(channels), VorbisSpeakers(channels);
    if channels == 7 {
      assert flac[p[3]] == BackCenter && vorbis[3] == SideLeft;
    } else {
      assert channels >= 1 ==> flac[p[0]] == vorbis[0];
      assert channels >= 2 ==> flac[p[1]] == vorbis[1];
      assert channels >= 3 ==> flac[p[2]] == vorbis[2];
      assert channels >= 4 ==> flac[p[3]] == vorbis[3];
      assert channels >= 5 ==> flac[p[4]] == vorbis[4];
      assert channels >= 6 ==> flac[p[5]] == vorbis[5];
      assert channels >= 8 ==> flac[p[6]] == vorbis[6] && flac[p[7]] == vorbis[7];
    }
  }

  // ------------------------------------------------------- the sample stream

  /** Integer samples scaled to [-1, 1) by 2^(bits - 1). */
  function Scaled(f: Frame, c: nat, t: nat): real
    requires f.bitsPerSample >= 1 && c < |f.pcm| && t < |f.pcm[c]|
  {
    f.pcm[c][t] as real / Masks.Pow2(f.bitsPerSample - 1) as real
  }

  function FrameRow(f: Frame, channels: nat, t: nat): (r: Row)
    requires 1 <= channels <= 8 && FrameOk(f, channels) && t < f.blocksize
    ensures |r| == channels
  {
    seq(channels, i requires 0 <= i < channels => Scaled(f, WavPermute(channels)[i], t))
  }

  function FrameRows(f: Frame, channels: nat): (rows: seq<Row>)
    requires 1 <= channels <= 8 && FrameOk(f, channels)
    ensures |rows| == f.blocksize
  {
    seq(f.blocksize, t requires 0 <= t < f.blocksize => FrameRow(f, channels, t))
  }

  function StepRows(s: DecoderStep, channels: nat): seq<Row>
    requires 1 <= channels <= 8 && (s.frame.Some? ==> FrameOk(s.frame.value, channels))
  {
    if s.frame.Some? then FrameRows(s.frame.value, channels) else []
  }

  /** Everything the decoder will deliver: its frames in order, up to the step that stops. */
  function Stream(steps: seq<DecoderStep>, channels: nat): seq<Row>
    requires StepsOk(steps, channels)
  {
    if steps == [] then []
    else StepRows(steps[0], channels) + if steps[0].stop then [] else Stream(steps[1..], channels)
  }

  // ------------------------------------------------------- where each sample ends up

  /** x is sample t of channel c, divided by two to the bits less one. */
  predicate Denotes(x: real, f: Frame, c: nat, t: nat) {
    && f.bitsPerSample >= 1 && c < |f.pcm| && t < |f.pcm[c]|
    && x * Masks.Pow2(f.bitsPerSample - 1) as real == f.pcm[c][t] as real
  }

  lemma {:induction false} ScaledBack(f: Frame, c: nat, t: nat)
    requires f.bitsPerSample >= 1 && c < |f.pcm| && t < |f.pcm[c]|
    ensures Denotes(Scaled(f, c, t), f, c, t)
  {
    var d := Masks.Pow2(f.bitsPerSample - 1) as real;
    assert d > 0.0;
  }

  /** A FLAC speaker is fed to the place where Vorbis has that speaker. */
  lemma {:induction false} PermuteFollowsSpeakers(channels: nat, c: nat, v: nat)
    requires 1 <= channels <= 8 && channels != 7
    requires c < channels == |FlacSpeakers(channels)| && v < channels == |VorbisSpeakers(channels)|
    requires FlacSpeakers(channels)[c] == VorbisSpeakers(channels)[v]
    ensures WavPermute(channels)[v] == c
  {
    VorbisOrderExceptSeven(channels);
    SpeakersDiffer(channels);
    var p := WavPermute(channels)[v];
    hide WavPermute, FlacSpeakers, VorbisSpeakers;
    assert FlacSpeakers(channels)[p] == FlacSpeakers(channels)[c];
  }

  /** No speaker is there twice. */
  lemma {:induction false} SpeakersDiffer(channels: nat)
    requires 1 <= channels <= 8
    ensures var s := FlacSpeakers(channels); forall i, j :: 0 <= i < j < |s| ==> s[i] != s[j]
  {
  }

  /** FLAC channel c belongs in place v: where Vorbis has its speaker, but for seven channels, for
      which the source rotates the back and side speakers. */
  predicate SamePlace(channels: nat, c: nat, v: nat)
    requires c < channels && v < channels && 1 <= channels <= 8
  {
    if channels == 7 then c == [0, 2, 1, 4, 5, 6, 3][v]
    else
      && c < |FlacSpeakers(channels)| && v < |VorbisSpeakers(channels)|
      && FlacSpeakers(channels)[c] == VorbisSpeakers(channels)[v]
  }

  /** Place v of a row holds the frame's own sample of the speaker that belongs there. */
  lemma {:induction false} RowHoldsSpeakers(f: Frame, channels: nat, t: nat, c: nat, v: nat)
    requires 1 <= channels <= 8 && FrameOk(f, channels) && t < f.blocksize && c < channels && v < channels
    requires SamePlace(channels, c, v)
    ensures Denotes(FrameRow(f, channels, t)[v], f, c, t)
  {
    if channels != 7 {
      SpeakerCounts(channels);
      PermuteFollowsSpeakers(channels, c, v);
    }
    hide FlacSpeakers, VorbisSpeakers, Denotes;
    ScaledBack(f, c, t);
  }

  /** The samples per channel of the first j steps. */
  function Before(steps: seq<DecoderStep>, j: nat): nat
    requires j <= |steps|
  {
    if j == 0 then 0
    else Before(steps, j - 1) + if steps[j - 1].frame.Some? then steps[j - 1].frame.value.blocksize else 0
  }

  lemma {:induction false} BeforeTail(steps: seq<DecoderStep>, j: nat)
    requires 0 < j <= |steps|
    ensures Before(steps, j)
         == (if steps[0].frame.Some? then steps[0].frame.value.blocksize else 0) + Before(steps[1..], j - 1)
  {
    if j > 1 {
      BeforeTail(steps, j - 1);
    }
  }

  /** The decoder runs up to step j. */
  predicate Reaches(steps: seq<DecoderStep>, j: nat) {
    j <= |steps| && forall i :: 0 <= i < j ==> !steps[i].stop
  }

  lemma {:induction false} StreamParts(steps: seq<DecoderStep>, channels: nat)
    requires StepsOk(steps, channels) && steps != []
    ensures StepsOk(steps[1..], channels) && (steps[0].frame.Some? ==> FrameOk(steps[0].frame.value, channels))
    ensures Stream(steps, channels)
         == StepRows(steps[0], channels) + if steps[0].stop then [] else Stream(steps[1..], channels)
    ensures |StepRows(steps[0], channels)| == if steps[0].frame.Some? then steps[0].frame.value.blocksize else 0
  {
    hide WavPermute;
  }

  /** The decoder comes to step j, and its frame has a sample t. */
  predicate Delivered(steps: seq<DecoderStep>, j: nat, t: nat) {
    Reaches(steps, j) && j < |steps| && steps[j].frame.Some? && t < steps[j].frame.value.blocksize
  }

  lemma {:induction false} DeliveredTail(steps: seq<DecoderStep>, j: nat, t: nat)
    requires Delivered(steps, j, t) && j > 0
    ensures !steps[0].stop && Delivered(steps[1..], j - 1, t)
  {
    assert forall i :: 0 <= i < |steps| - 1 ==> steps[1..][i] == steps[i + 1];
  }

  lemma {:induction false} FrameOf(steps: seq<DecoderStep>, channels: nat, j: nat, t: nat)
    requires StepsOk(steps, channels) && Delivered(steps, j, t)
    ensures j < |steps| && steps[j].frame.Some? && 1 <= channels <= 8
    ensures FrameOk(steps[j].frame.value, channels) && t < steps[j].frame.value.blocksize
    ensures StepRows(steps[j], channels)[t] == FrameRow(steps[j].frame.value, channels, t)
  {
    hide FrameRow, Reaches, Scaled;
  }

  /** Sample t of the frame of step j is row number t behind the samples of the steps before. */
  lemma {:induction false} StreamAt(steps: seq<DecoderStep>, channels: nat, j: nat, t: nat)
    requires StepsOk(steps, channels) && Delivered(steps, j, t)
    ensures j < |steps| && steps[j].frame.Some? && 1 <= channels <= 8
    ensures FrameOk(steps[j].frame.value, channels) && t < steps[j].frame.value.blocksize
    ensures Before(steps, j) + t < |Stream(steps, channels)|
    ensures Stream(steps, channels)[Before(steps, j) + t] == FrameRow(steps[j].frame.value, channels, t)
    decreases j
  {
    hide *;
    FrameOf(steps, channels, j, t);
    StreamParts(steps, channels);
    if j > 0 {
      DeliveredTail(steps, j, t);
      BeforeTail(steps, j);
      StreamAt(steps[1..], channels, j - 1, t);
    } else {
      BeforeNone(steps);
    }
  }

  lemma {:induction false} BeforeNone(steps: seq<DecoderStep>)
    ensures Before(steps, 0) == 0
  {
  }

  lemma {:induction false} ReachesTail(steps: seq<DecoderStep>, j: nat)
    requires Reaches(steps, j) && (j < |steps| ==> steps[j].stop) && j > 0
    ensures j <= |steps| && !steps[0].stop && Reaches(steps[1..], j - 1) && (j < |steps| ==> steps[1..][j - 1].stop)
  {
    assert forall i :: 0 <= i < |steps| - 1 ==> steps[1..][i] == steps[i + 1];
  }

  /** The stream ends behind the samples of the step that stops, or of the last. */
  lemma {:induction false} StreamLength(steps: seq<DecoderStep>, channels: nat, j: nat)
    requires 1 <= channels <= 8 && StepsOk(steps, channels) && Reaches(steps, j) && (j < |steps| ==> steps[j].stop)
    ensures |Stream(steps, channels)| == Before(steps, if j < |steps| then j + 1 else j)
    decreases j
  {
    hide *;
    if j > 0 {
      ReachesTail(steps, j);
      StreamParts(steps, channels);
      BeforeTail(steps, if j < |steps| then j + 1 else j);
      StreamLength(steps[1..], channels, j - 1);
    } else if steps == [] {
      StreamNone(channels);
      BeforeNone(steps);
    } else {
      StreamParts(steps, channels);
      BeforeTail(steps, 1);
      BeforeNone(steps[1..]);
    }
  }

  lemma {:induction false} StreamNone(channels: nat)
    requires 1 <= channels <= 8
    ensures StepsOk([], channels) && Stream([], channels) == []
  {
  }

  /** In its row, behind the samples of the steps before, place v holds sample t of channel c of
      the frame of step j. */
  ghost predicate HoldsSample(rows: seq<Row>, steps: seq<DecoderStep>, j: nat, t: nat, c: nat, v: nat)
    requires Delivered(steps, j, t)
  {
    var n := Before(steps, j) + t;
    n < |rows| && v < |rows[n]| && Denotes(rows[n][v], steps[j].frame.value, c, t)
  }

  /** The rows are all samples of the frames the decoder delivers up to the step that stops, and
      no others: every speaker's samples in their order, in the place Vorbis has for it. */
  ghost predicate HoldsSamples(rows: seq<Row>, steps: seq<DecoderStep>, channels: nat)
    requires 1 <= channels <= 8
  {
    && (forall j: nat :: Reaches(steps, j) && (j < |steps| ==> steps[j].stop) ==>
          |rows| == Before(steps, if j < |steps| then j + 1 else j))
    && (forall n :: 0 <= n < |rows| ==> |rows[n]| == channels)
    && (forall j: nat, t: nat, c: nat, v: nat ::
          Delivered(steps, j, t) && c < channels && v < channels && SamePlace(channels, c, v) ==>
            HoldsSample(rows, steps, j, t, c, v))
  }

  lemma {:induction false} SpeakerCounts(channels: nat)
    requires 1 <= channels <= 8
    ensures |FlacSpeakers(channels)| == |VorbisSpeakers(channels)| == channels
  {
  }

  lemma {:induction false} SampleInPlace(steps: seq<DecoderStep>, channels: nat, j: nat, t: nat, c: nat, v: nat)
    requires StepsOk(steps, channels) && Delivered(steps, j, t)
    requires c < channels && v < channels && SamePlace(channels, c, v)
    ensures HoldsSample(Stream(steps, channels), steps, j, t, c, v)
  {
    hide *;
    StreamAt(steps, channels, j, t);
    RowHoldsSpeakers(steps[j].frame.value, channels, t, c, v);
    SampleHeld(Stream(steps, channels), steps, j, t, c, v);
  }

  lemma {:induction false} SampleHeld(rows: seq<Row>, steps: seq<DecoderStep>, j: nat, t: nat, c: nat, v: nat)
    requires Delivered(steps, j, t) && Before(steps, j) + t < |rows| && v < |rows[Before(steps, j) + t]|
    requires Denotes(rows[Before(steps, j) + t][v], steps[j].frame.value, c, t)
    ensures HoldsSample(rows, steps, j, t, c, v)
  {
    hide Denotes, Before;
  }

  lemma {:induction false} RowWidths(steps: seq<DecoderStep>, channels: nat)
    requires StepsOk(steps, channels)
    ensures forall n :: 0 <= n < |Stream(steps, channels)| ==> |Stream(steps, channels)[n]| == channels
  {
    if steps != [] {
      StreamParts(steps, channels);
      if !steps[0].stop {
        RowWidths(steps[1..], channels);
      }
      hide Stream, WavPermute;
    }
  }

  /** The stream holds every sample of the file in the place its speaker has in Vorbis. */
  lemma {:induction false} StreamHoldsSamples(steps: seq<DecoderStep>, channels: nat)
    requires StepsOk(steps, channels)
    ensures HoldsSamples(Stream(steps, channels), steps, channels)
  {
    RowWidths(steps, channels);
    hide Stream, SamePlace, HoldsSample, Delivered, Before, Reaches, StepsOk;
    forall j: nat | Reaches(steps, j) && (j < |steps| ==> steps[j].stop)
      ensures |Stream(steps, channels)| == Before(steps, if j < |steps| then j + 1 else j)
    {
      StreamLength(steps, channels, j);
    }
    forall j: nat, t: nat, c: nat, v: nat |
      Delivered(steps, j, t) && c < channels && v < channels && SamePlace(channels, c, v)
      ensures HoldsSample(Stream(steps, channels), steps, j, t, c, v)
    {
      SampleInPlace(steps, channels, j, t, c, v);
    }
  }

  /** The planes hold these rows, one after the other from their start. */
  ghost predicate InPlanes(buffer: array2<real>, rows: seq<Row>)
    reads buffer
  {
    && |rows| <= buffer.Length1
    && (forall t :: 0 <= t < |rows| ==> |rows[t]| == buffer.Length0)
    && (forall i, t :: 0 <= i < buffer.Length0 && 0 <= t < |rows| ==> buffer[i, t] == rows[t][i])
  }

  /** The first n rows of the planes the encoder supplied. */
  function Rows(buffer: array2<real>, n: nat): (rows: seq<Row>)
    requires n <= buffer.Length1
    reads buffer
    ensures |rows| == n && InPlanes(buffer, rows)
  {
    seq(n, t requires 0 <= t < n reads buffer =>
      seq(buffer.Length0, i requires 0 <= i < buffer.Length0 reads buffer => buffer[i, t]))
  }

  lemma {:induction false} InPlanesUnique(buffer: array2<real>, rows: seq<Row>)
    requires InPlanes(buffer, rows)
    ensures Rows(buffer, |rows|) == rows
  {
    var read := Rows(buffer, |rows|);
    assert forall t :: 0 <= t < |rows| ==> read[t] == rows[t];
  }

  class Flac {
    /** The stream's channel count, the same in every frame. */
    const streamChannels: nat
    var channels: nat
    var eos: bool
    var buf: array2<real>
    var bufferSampleLen: nat
    var bufferSampleSeek: nat
    var bufferSampleCount: nat
    /** What the decoder library will still do. */
    var decoder: seq<DecoderStep>
    /** The rows buffered and not yet handed out. */
    ghost var pending: seq<Row>

    ghost predicate Valid()
      reads this, buf
    {
      && StepsOk(decoder, streamChannels)
      && buf.Length0 == channels && buf.Length1 == bufferSampleLen
      && bufferSampleSeek + bufferSampleCount <= bufferSampleLen
      && (channels == 0 || channels == streamChannels)
      && (bufferSampleCount > 0 ==> channels == streamChannels)
      && |pending| == bufferSampleCount
      && (forall t :: 0 <= t < |pending| ==> |pending[t]| == channels)
      && (forall t, i :: 0 <= t < |pending| && 0 <= i < channels ==>
            pending[t][i] == buf[WavPermute(channels)[i], bufferSampleSeek + t])
    }

    ghost function Remaining(): seq<Row>
      requires Valid()
      reads this, buf
    {
      pending + if eos then [] else Stream(decoder, streamChannels)
    }

    lemma {:induction false} Parts()
      requires Valid()
      ensures StepsOk(decoder, streamChannels) && bufferSampleCount == |pending|
      ensures Remaining() == pending + if eos then [] else Stream(decoder, streamChannels)
    {
    }

    /** read_flac_file after the metadata: one priming call, whose outcome is ignored. */
    constructor (steps: seq<DecoderStep>, streamChannels: nat)
      requires StepsOk(steps, streamChannels)
      ensures Valid() && fresh(buf) && this.streamChannels == streamChannels
      ensures Remaining() == Stream(steps, streamChannels)
    {
      this.streamChannels := streamChannels;
      channels, eos := 0, false;
      buf := new real[0, 0];
      bufferSampleLen, bufferSampleSeek, bufferSampleCount := 0, 0, 0;
      decoder := steps;
      pending := [];
      new;
      var ret := ProcessSingle();
    }

    /** resize_buffer */
    method ResizeBuffer(newChannels: nat, newSamples: nat)
      requires Valid() && newChannels == streamChannels
      modifies this
      ensures Valid() && channels == newChannels && bufferSampleLen == newSamples
      ensures unchanged(`decoder) && unchanged(`eos)
      ensures bufferSampleSeek == 0 && bufferSampleCount == 0
      ensures buf == old(buf) || fresh(buf)
    {
      pending := [];
      if newChannels == channels && newSamples == bufferSampleLen {
        bufferSampleSeek, bufferSampleCount := 0, 0;
        return;
      }
      if newChannels != channels {
        channels := newChannels;
      }
      buf := new real[newChannels, newSamples];
      bufferSampleLen := newSamples;
      bufferSampleSeek := 0;
      bufferSampleCount := 0;
    }

    /** flac_write: the frame replaces the buffer, which must have been handed out. */
    method Write(frame: Frame)
      requires Valid() && FrameOk(frame, streamChannels) && bufferSampleCount == 0
      modifies this, buf
      ensures Valid() && (buf == old(buf) || fresh(buf))
      ensures pending == FrameRows(frame, streamChannels)
      ensures unchanged(`decoder) && unchanged(`eos)
    {
      var samples, frameChannels := frame.blocksize, |frame.pcm|;
      ResizeBuffer(frameChannels, samples);
      for i := 0 to frameChannels
        modifies buf
        invariant forall c, t :: 0 <= c < i && 0 <= t < samples ==> buf[c, t] == Scaled(frame, c, t)
      {
        for j := 0 to samples
          modifies buf
          invariant forall c, t :: 0 <= c < i && 0 <= t < samples ==> buf[c, t] == Scaled(frame, c, t)
          invariant forall t :: 0 <= t < j ==> buf[i, t] == Scaled(frame, i, t)
        {
          buf[i, j] := frame.pcm[i][j] as real / Masks.Pow2(frame.bitsPerSample - 1) as real;
        }
      }
      bufferSampleCount := samples;
      pending := FrameRows(frame, streamChannels);
    }

    /** One call of the decoder; true when it failed or reached the end of the stream. After
        that the decoder stays stopped. It is run on an empty buffer only. */
    method ProcessSingle() returns (stop: bool)
      requires Valid() && bufferSampleCount == 0
      modifies this, buf
      ensures Valid() && (buf == old(buf) || fresh(buf))
      ensures pending + Stream(decoder, streamChannels) == old(Stream(decoder, streamChannels))
      ensures unchanged(`eos) && (!eos ==> Remaining() == old(Remaining()))
      ensures stop ==> decoder == []
      ensures !stop ==> old(decoder) != [] && decoder == old(decoder)[1..]
    {
      if decoder == [] {
        return true;
      }
      var step := decoder[0];
      decoder := if step.stop then [] else decoder[1..];
      stop := step.stop;
      if step.frame.Some? {
        Write(step.frame.value);
      }
    }

    /** A stopped decoder adds nothing, so noting the end changes nothing that is still to come. */
    method NoteEnd()
      requires Valid() && decoder == []
      modifies this`eos
      ensures Valid() && eos && Remaining() == old(Remaining())
    {
      eos := true;
    }

    /** The empty buffer's turn in process_flac_file: run the decoder, note the end. */
    method Refill()
      requires Valid() && bufferSampleCount == 0 && !eos
      modifies this, buf
      ensures Valid() && (buf == old(buf) || fresh(buf))
      ensures Remaining() == old(Remaining())
      ensures eos || |decoder| < |old(decoder)|
    {
      var stop := ProcessSingle();
      if stop {
        NoteEnd();
      }
    }

    /** `copy` samples of every channel, in Vorbis order, behind the `out` rows already in the
        planes. */
    method CopyOut(buffer: array2<real>, done: nat, copy: nat, ghost out: seq<Row>)
      requires Valid() && buffer != buf && buffer.Length0 == streamChannels
      requires 0 < copy <= bufferSampleCount && done + copy <= buffer.Length1
      requires |out| == done && InPlanes(buffer, out)
      modifies this, buffer
      ensures Valid() && pending == old(pending)[copy..]
      ensures unchanged(`decoder) && unchanged(`eos) && unchanged(`buf)
      ensures old(pending)[..copy] + Remaining() == old(Remaining())
      ensures InPlanes(buffer, out + old(pending)[..copy])
    {
      CopyLoops(buffer, done, copy, out);
      hide InPlanes, Stream, StepsOk, WavPermute;
      bufferSampleSeek := bufferSampleSeek + copy;
      bufferSampleCount := bufferSampleCount - copy;
      ghost var buffered := pending;
      pending := pending[copy..];
      assert buffered == buffered[..copy] + pending;
      Sequences.Associates(buffered[..copy], pending, if eos then [] else Stream(decoder, streamChannels));
    }

    /** The copy loops. */
    method CopyLoops(buffer: array2<real>, done: nat, copy: nat, ghost out: seq<Row>)
      requires Valid() && buffer != buf && buffer.Length0 == streamChannels
      requires 0 < copy <= bufferSampleCount && done + copy <= buffer.Length1
      requires |out| == done && InPlanes(buffer, out)
      modifies buffer
      ensures Valid() && InPlanes(buffer, out + pending[..copy])
    {
      hide WavPermute;
      var seek := bufferSampleSeek;
      ghost var more := out + pending[..copy];
      for i := 0 to channels
        invariant InPlanes(buffer, out)
        invariant forall c, t :: 0 <= c < i && 0 <= t < done + copy ==> buffer[c, t] == more[t][c]
      {
        var permute := WavPermute(channels)[i];
        for j := 0 to copy
          invariant InPlanes(buffer, out)
          invariant forall c, t :: 0 <= c < i && 0 <= t < done + copy ==> buffer[c, t] == more[t][c]
          invariant forall t :: 0 <= t < done + j ==> buffer[i, t] == more[t][i]
        {
          assert more[j + done] == pending[j];
          buffer[i, j + done] := buf[permute, j + seek];
        }
      }
    }

    /** process_flac_file: exactly the next min(samples, remaining) rows are handed out. Fewer
        than requested, and in particular none, means the stream has ended. */
    method Process(buffer: array2<real>, samples: int) returns (realSamples: nat)
      requires Valid() && buffer != buf
      requires buffer.Length0 == streamChannels && samples <= buffer.Length1
      modifies this, buf, buffer
      ensures Valid() && buffer != buf && (buf == old(buf) || fresh(buf))
      ensures realSamples == Min(if samples < 0 then 0 else samples, |old(Remaining())|)
      ensures InPlanes(buffer, old(Remaining())[..realSamples])
      ensures Remaining() == old(Remaining())[realSamples..]
      ensures realSamples < samples ==> eos && Remaining() == []
    {
      ghost var all := Remaining();
      ghost var given: seq<Row> := [];
      realSamples := 0;
      while realSamples < samples
        invariant Valid() && buffer != buf && (buf == old(buf) || fresh(buf))
        invariant |given| == realSamples && (realSamples > 0 ==> realSamples <= samples)
        invariant InPlanes(buffer, given)
        invariant given + Remaining() == all
        decreases samples - realSamples, if eos then 0 else 1 + |decoder|
      {
        hide InPlanes, Stream, Valid, Remaining;
        Parts();
        if bufferSampleCount > 0 {
          var copy := if bufferSampleCount < samples - realSamples then bufferSampleCount else samples - realSamples;
          ghost var more := given + pending[..copy];
          ghost var part := pending[..copy];
          CopyOut(buffer, realSamples, copy, given);
          Sequences.Associates(given, part, Remaining());
          given := more;
          realSamples := realSamples + copy;
        } else if !eos {
          Refill();
        } else {
          assert Remaining() == [];
          break;
        }
      }
      Sequences.SplitAt(given, Remaining());
    }
  }

  /** The input side of ogg_encode: ask for a fixed amount until nothing comes. Every sample
      of the file is encoded once, in order. */
  method EncodeAll(flac: Flac, requested: nat) returns (encoded: seq<Row>)
    requires flac.Valid() && requested > 0
    modifies flac, flac.buf
    ensures encoded == old(flac.Remaining())
    ensures flac.Valid() && flac.Remaining() == []
  {
    hide Stream, InPlanes, StepsOk, WavPermute;
    encoded := [];
    ghost var all := flac.Remaining();
    var more := true;
    while more
      invariant flac.Valid() && (flac.buf == old(flac.buf) || fresh(flac.buf))
      invariant encoded + flac.Remaining() == all
      invariant !more ==> flac.Remaining() == []
      decreases |flac.Remaining()|, more
    {
      ghost var rest := flac.Remaining();
      var part := Request(flac, requested);
      if |part| == 0 {
        more := false;
      } else {
        encoded := encoded + part;
        assert rest == rest[..|part|] + rest[|part|..];
      }
    }
  }

  /** One request, with planes of the requested length. */
  method Request(flac: Flac, requested: nat) returns (part: seq<Row>)
    requires flac.Valid()
    modifies flac, flac.buf
    ensures flac.Valid() && (flac.buf == old(flac.buf) || fresh(flac.buf))
    ensures var n := Min(requested, |old(flac.Remaining())|);
      part == old(flac.Remaining())[..n] && flac.Remaining() == old(flac.Remaining())[n..]
  {
    ghost var rest := flac.Remaining();
    var buffer := new real[flac.streamChannels, requested];
    var n := flac.Process(buffer, requested);
    part := Rows(buffer, n);
    InPlanesUnique(buffer, rest[..n]);
  }

  // ------------------------------------------------------- any request sizes

  /** What a sequence of requests receives from a stream. */
  function Deliveries(rows: seq<Row>, requests: seq<nat>): seq<seq<Row>> {
    if requests == [] then []
    else
      var n := Min(requests[0], |rows|);
      [rows[..n]] + Deliveries(rows[n..], requests[1..])
  }

  function Total(requests: seq<nat>): nat {
    if requests == [] then 0 else requests[0] + Total(requests[1..])
  }

  /** Joined up, the deliveries are the stream's prefix of the total requested length: nothing
      is lost, repeated or reordered by the choice of request sizes. */
  lemma {:induction false} DeliveriesArePrefix(rows: seq<Row>, requests: seq<nat>)
    ensures Sequences.Flatten(Deliveries(rows, requests)) == rows[..Min(Total(requests), |rows|)]
  {
    if requests != [] {
      var n := Min(requests[0], |rows|);
      DeliveriesArePrefix(rows[n..], requests[1..]);
      var parts := Deliveries(rows, requests);
      assert parts[1..] == Deliveries(rows[n..], requests[1..]);
      var m := Min(Total(requests[1..]), |rows| - n);
      assert rows[..n] + rows[n..][..m] == rows[..n + m];
    }
  }

  /** The imperative adapter makes those deliveries, request by request. */
  method Serve(flac: Flac, requests: seq<nat>) returns (parts: seq<seq<Row>>)
    requires flac.Valid()
    modifies flac, flac.buf
    ensures flac.Valid()
    ensures parts == Deliveries(old(flac.Remaining()), requests)
  {
    parts := [];
    ghost var all := flac.Remaining();
    for k := 0 to |requests|
      invariant flac.Valid() && (flac.buf == old(flac.buf) || fresh(flac.buf))
      invariant parts + Deliveries(flac.Remaining(), requests[k..]) == Deliveries(all, requests)
    {
      ghost var rest := flac.Remaining();
      var part := Request(flac, requests[k]);
      assert requests[k..][1..] == requests[k + 1..];
      assert Deliveries(rest, requests[k..]) == [part] + Deliveries(flac.Remaining(), requests[k + 1..]);
      parts := parts + [part];
    }
  }

  /** A file from opening to its end: the encoder gets exactly its samples, whatever it asks for
      at a time. */
  method EncodeFile(steps: seq<DecoderStep>, channels: nat, requested: nat) returns (encoded: seq<Row>)
    requires StepsOk(steps, channels) && requested > 0
    ensures HoldsSamples(encoded, steps, channels)
  {
    hide *;
    var flac := new Flac(steps, channels);
    encoded := EncodeAll(flac, requested);
    StreamHoldsSamples(steps, channels);
  }
}
