/** The MP3 decoder's adapter: interleaved samples are read into a scratch buffer and dealt
    out to one plane per channel. */
module Mp3File {
  import opened Arithmetic
  import opened Sequences

  const FLOAT_SIZE: nat := 4

  datatype Status = Ok | NeedMore | Done | NewFormat | Failed

  /** Where sample j of channel k stands among interleaved samples. */
  function Index(channels: nat, j: nat, k: nat): nat {
    j * channels + k
  }

  /** Every position of n complete frames belongs to exactly one sample of one channel. */
  lemma {:induction false} IndexIsBijection(channels: nat, n: nat, i: nat)
    requires channels > 0 && i < n * channels
    ensures i / channels < n && i % channels < channels && Index(channels, i / channels, i % channels) == i
    ensures forall j: nat, k: nat :: k < channels && Index(channels, j, k) == i ==>
      j == i / channels && k == i % channels
  {
    var q, r := i / channels, i % channels;
    assert q * channels + r == i;
    if q >= n {
      Times(n, q, channels);
    }
    forall j: nat, k: nat | k < channels && Index(channels, j, k) == i
      ensures j == q && k == r
    {
      NextFrame(channels, j);
      NextFrame(channels, q);
      if j < q {
        Times(j + 1, q, channels);
      } else if q < j {
        Times(q + 1, j, channels);
      }
    }
  }

  lemma {:induction false} NextFrame(channels: nat, j: nat)
    ensures (j + 1) * channels == j * channels + channels == Index(channels, j, channels)
  {
  }

  lemma {:induction false} IndexBelow(channels: nat, n: nat, j: nat, k: nat)
    requires j < n && k < channels
    ensures Index(channels, j, k) < n * channels
  {
    Times(j + 1, n, channels);
    NextFrame(channels, j);
  }

  /** Sample j of channel k; the positions used lie inside, as IndexBelow says. */
  function At(samples: seq<real>, channels: nat, j: nat, k: nat): real {
    var i := Index(channels, j, k);
    if i < |samples| then samples[i] else 0.0
  }

  // ------------------------------------------------------------ reading

  function BytesPerFrame(channels: nat, sizeOfSample: nat): (bytes: nat)
    requires channels > 0 && sizeOfSample > 0
    ensures bytes > 0
  {
    channels * sizeOfSample
  }

  function BufferSize(samples: nat, perSample: nat): nat {
    samples * perSample
  }

  function CompleteFrames(done: nat, bytesCh: nat): nat
    requires bytesCh > 0
  {
    done / bytesCh
  }

  /** process_mp3_file after the library's read: `decoded` is the scratch buffer, of which
      the first `done` bytes were written; the planes have room for the samples asked for. */
  method ProcessMp3File(status: Status, sizeOfSample: nat, channels: nat, decoded: array<real>, done: nat,
                        buffer: array2<real>, samples: nat) returns (count: nat)
    requires sizeOfSample > 0 && channels > 0 && done <= BufferSize(samples, BytesPerFrame(channels, sizeOfSample))
    requires sizeOfSample == 4 ==> decoded.Length == BufferSize(samples, channels)
    requires buffer.Length0 == channels && buffer.Length1 == samples
    modifies buffer
    ensures count ==
      if status.NeedMore? || status.NewFormat? then 0 else CompleteFrames(done, BytesPerFrame(channels, sizeOfSample))
    ensures count <= samples
    ensures forall k, j :: 0 <= k < channels && 0 <= j < samples ==>
      buffer[k, j] ==
        if sizeOfSample == 4 && j < count then At(decoded[..], channels, j, k) else old(buffer[k, j])
  {
    assert FLOAT_SIZE == 4;
    hide *;
    var bytesCh := BytesPerFrame(channels, sizeOfSample);
    WholeFrames(done, samples, bytesCh);
    if status != Ok {
      if status == NeedMore {
        return 0;
      } else if status == Done {
      } else if status == NewFormat {
        return 0;
      }
    }
    count := CompleteFrames(done, bytesCh);
    if sizeOfSample == FLOAT_SIZE {
      DealOut(channels, decoded, buffer, samples, count);
    }
  }

  /** The two copy loops. */
  method DealOut(channels: nat, decoded: array<real>, buffer: array2<real>, samples: nat, count: nat)
    requires decoded.Length == BufferSize(samples, channels) && count <= samples
    requires buffer.Length0 == channels && buffer.Length1 == samples
    modifies buffer
    ensures forall k, j :: 0 <= k < channels && 0 <= j < samples ==>
      buffer[k, j] == if j < count then At(decoded[..], channels, j, k) else old(buffer[k, j])
  {
    for j := 0 to count
      invariant forall k, i :: 0 <= k < channels && 0 <= i < samples ==>
        buffer[k, i] == if i < j then At(decoded[..], channels, i, k) else old(buffer[k, i])
    {
      for k := 0 to channels
        invariant forall l, i :: 0 <= l < channels && 0 <= i < samples ==>
          buffer[l, i] == if i < j || (i == j && l < k) then At(decoded[..], channels, i, l) else old(buffer[l, i])
      {
        hide Index;
        IndexBelow(channels, samples, j, k);
        buffer[k, j] := decoded[Index(channels, j, k)];
      }
    }
  }

  lemma {:induction false} WholeFrames(done: nat, samples: nat, bytesCh: nat)
    requires bytesCh > 0 && done <= BufferSize(samples, bytesCh)
    ensures CompleteFrames(done, bytesCh) <= samples
  {
    var q := done / bytesCh;
    assert q * bytesCh <= done;
    NextFrame(bytesCh, samples);
    if q > samples {
      Times(samples + 1, q, bytesCh);
    }
  }

  // ------------------------------------------------------------ planes and frames

  /** The planes of n complete frames. */
  function Planes(samples: seq<real>, channels: nat, n: nat): (planes: seq<seq<real>>)
    ensures |planes| == channels && Rectangular(planes, n)
    ensures forall k, j :: 0 <= k < channels && 0 <= j < n ==> planes[k][j] == At(samples, channels, j, k)
  {
    seq(channels, k requires 0 <= k < channels => seq(n, j requires 0 <= j < n => At(samples, channels, j, k)))
  }

  predicate Rectangular(planes: seq<seq<real>>, n: nat) {
    forall k :: 0 <= k < |planes| ==> |planes[k]| == n
  }

  /** Frame after frame, one sample of each plane. */
  function Interleaved(planes: seq<seq<real>>, n: nat, size: nat): (samples: seq<real>)
    requires Rectangular(planes, size) && n <= size
    ensures |samples| == n * |planes|
  {
    if n == 0 then [] else Interleaved(planes, n - 1, size) + Frame(planes, n - 1, size)
  }

  function Frame(planes: seq<seq<real>>, j: nat, size: nat): (frame: seq<real>)
    requires Rectangular(planes, size) && j < size
    ensures |frame| == |planes| && forall k :: 0 <= k < |planes| ==> frame[k] == planes[k][j]
  {
    seq(|planes|, k requires 0 <= k < |planes| => planes[k][j])
  }

  /** Interleaving the planes again gives the samples of the complete frames. */
  lemma {:induction false} ReinterleavedIs(samples: seq<real>, channels: nat, size: nat, n: nat)
    requires channels > 0 && size * channels <= |samples| && n <= size
    ensures n * channels <= |samples|
    ensures Interleaved(Planes(samples, channels, size), n, size) == samples[..n * channels]
  {
    var planes := Planes(samples, channels, size);
    Times(n, size, channels);
    if n > 0 {
      ReinterleavedIs(samples, channels, size, n - 1);
      NextFrame(channels, n - 1);
      var from := (n - 1) * channels;
      var frame := Frame(planes, n - 1, size);
      assert frame == samples[from..from + channels];
      assert samples[..from] + samples[from..from + channels] == samples[..from + channels];
    }
  }

  lemma {:induction false} InterleavedAt(planes: seq<seq<real>>, n: nat, size: nat, j: nat, k: nat)
    requires Rectangular(planes, size) && j < n <= size && k < |planes|
    ensures At(Interleaved(planes, n, size), |planes|, j, k) == planes[k][j]
  {
    IndexBelow(|planes|, n, j, k);
    NextFrame(|planes|, n - 1);
    if j < n - 1 {
      IndexBelow(|planes|, n - 1, j, k);
      InterleavedAt(planes, n - 1, size, j, k);
    }
  }

  /** Dealing interleaved planes out again gives the planes. */
  lemma {:induction false} DealtOutAgain(planes: seq<seq<real>>, n: nat)
    requires |planes| > 0 && Rectangular(planes, n)
    ensures Planes(Interleaved(planes, n, n), |planes|, n) == planes
  {
    var again := Planes(Interleaved(planes, n, n), |planes|, n);
    forall k | 0 <= k < |planes|
      ensures again[k] == planes[k]
    {
      forall j | 0 <= j < n
        ensures again[k][j] == planes[k][j]
      {
        InterleavedAt(planes, n, n, j, k);
      }
    }
  }

  // ------------------------------------------------------------ a whole file

  /** The samples of the complete frames among so many. */
  function WholeLength(length: nat, channels: nat): (whole: nat)
    requires channels > 0
    ensures whole == length - length % channels
  {
    length / channels * channels
  }

  /** One call of the library's read: its status and the samples it left in the buffer. */
  datatype Read = Read(status: Status, samples: seq<real>)

  predicate Refused(status: Status) {
    status.NeedMore? || status.NewFormat?
  }

  /** What the adapter returns for it. */
  function Count(r: Read, channels: nat): nat
    requires channels > 0
  {
    if Refused(r.status) then 0 else |r.samples| / channels
  }

  function AllSamples(calls: seq<Read>): seq<real> {
    if calls == [] then [] else calls[0].samples + AllSamples(calls[1..])
  }

  /** What the encoder gets: the complete frames of each call, up to the first that returns 0. */
  function Encoded(calls: seq<Read>, channels: nat): seq<real>
    requires channels > 0
  {
    if calls == [] || Count(calls[0], channels) == 0 then []
    else calls[0].samples[..WholeLength(|calls[0].samples|, channels)] + Encoded(calls[1..], channels)
  }

  /** A call whose samples all reach the encoder: some complete frames and nothing else. */
  predicate Whole(r: Read, channels: nat)
    requires channels > 0
  {
    !Refused(r.status) && r.samples != [] && |r.samples| % channels == 0
  }

  /** Up to call n everything reaches the encoder, and from there on there is nothing. */
  predicate WholeUpTo(calls: seq<Read>, channels: nat, n: nat)
    requires channels > 0
  {
    && n <= |calls|
    && (forall i :: 0 <= i < n ==> Whole(calls[i], channels))
    && (forall i :: n <= i < |calls| ==> calls[i].samples == [])
  }

  lemma {:induction false} WholeCount(r: Read, channels: nat)
    requires channels > 0
    ensures Whole(r, channels) <==> Count(r, channels) > 0 && WholeLength(|r.samples|, channels) == |r.samples|
    ensures Whole(r, channels) ==> r.samples[..|r.samples|] == r.samples
  {
    var n := |r.samples|;
    assert n / channels * channels + n % channels == n;
  }

  lemma {:induction false} NoSamples(calls: seq<Read>)
    ensures AllSamples(calls) == [] <==> forall i :: 0 <= i < |calls| ==> calls[i].samples == []
  {
    if calls != [] {
      NoSamples(calls[1..]);
      if forall i :: 0 <= i < |calls[1..]| ==> calls[1..][i].samples == [] {
        assert forall i :: 1 <= i < |calls| ==> calls[i] == calls[1..][i - 1];
      }
    }
  }

  lemma {:induction false} EncodedLength(calls: seq<Read>, channels: nat)
    requires channels > 0
    ensures |Encoded(calls, channels)| <= |AllSamples(calls)|
  {
    if calls != [] {
      EncodedLength(calls[1..], channels);
    }
  }

  /** Equal lengths already mean that nothing was dropped. */
  lemma {:induction false} EqualLengthWhole(calls: seq<Read>, channels: nat) returns (n: nat)
    requires channels > 0 && |Encoded(calls, channels)| == |AllSamples(calls)|
    ensures WholeUpTo(calls, channels, n)
  {
    if calls == [] || Count(calls[0], channels) == 0 {
      n := 0;
      NoSamples(calls);
    } else {
      EncodedLength(calls[1..], channels);
      var m := EqualLengthWhole(calls[1..], channels);
      WholeCount(calls[0], channels);
      n := m + 1;
      hide Whole, Count, WholeLength;
      assert forall i :: 1 <= i < |calls| ==> calls[i] == calls[1..][i - 1];
    }
  }

  lemma {:induction false} WholeEncoded(calls: seq<Read>, channels: nat, n: nat)
    requires channels > 0 && WholeUpTo(calls, channels, n)
    ensures Encoded(calls, channels) == AllSamples(calls)
  {
    if n == 0 {
      NoSamples(calls);
    } else {
      assert Whole(calls[0], channels);
      WholeCount(calls[0], channels);
      hide Whole, Count, WholeLength;
      assert forall i :: 0 <= i < |calls[1..]| ==> calls[1..][i] == calls[i + 1];
      WholeEncoded(calls[1..], channels, n - 1);
    }
  }

  /** Every decoded sample is encoded exactly when the calls are whole up to some call behind
      which nothing was decoded: a call that ends inside a frame, one that reports a new format
      or wants more with samples in the buffer, and anything behind an empty call lose samples. */
  lemma {:induction false} NothingDroppedExactlyForWholeFrames(calls: seq<Read>, channels: nat)
    requires channels > 0
    ensures Encoded(calls, channels) == AllSamples(calls) <==> exists n :: WholeUpTo(calls, channels, n)
  {
    if Encoded(calls, channels) == AllSamples(calls) {
      var n := EqualLengthWhole(calls, channels);
    }
    if n: nat :| WholeUpTo(calls, channels, n) {
      WholeEncoded(calls, channels, n);
    }
  }

  /** The first n samples of every plane. */
  function FirstOf(buffer: array2<real>, n: nat): (planes: seq<seq<real>>)
    requires n <= buffer.Length1
    reads buffer
    ensures |planes| == buffer.Length0 && Rectangular(planes, n)
    ensures forall k, j :: 0 <= k < buffer.Length0 && 0 <= j < n ==> planes[k][j] == buffer[k, j]
  {
    seq(buffer.Length0, k requires 0 <= k < buffer.Length0 reads buffer =>
      seq(n, j requires 0 <= j < n reads buffer => buffer[k, j]))
  }

  /** One request of the encoder: what it reads off the planes are the call's complete frames. */
  method Request(call: Read, channels: nat, samples: nat) returns (count: nat, part: seq<real>)
    requires channels > 0 && |call.samples| <= BufferSize(samples, channels)
    ensures count == Count(call, channels)
    ensures part == if count == 0 then [] else call.samples[..WholeLength(|call.samples|, channels)]
  {
    var size := BufferSize(samples, channels);
    var scratch := new real[size](_ => 0.0);
    for i := 0 to |call.samples|
      invariant scratch[..i] == call.samples[..i]
    {
      scratch[i] := call.samples[i];
    }
    var buffer := new real[channels, samples];
    BytesAndFrames(|call.samples|, samples, channels);
    count := ProcessMp3File(call.status, FLOAT_SIZE, channels, scratch, |call.samples| * FLOAT_SIZE, buffer, samples);
    part := Interleaved(FirstOf(buffer, count), count, count);
    if count > 0 {
      FramesRead(call.samples, scratch[..], channels, count, FirstOf(buffer, count));
    }
  }

  lemma {:induction false} BytesAndFrames(length: nat, samples: nat, channels: nat)
    requires channels > 0 && length <= BufferSize(samples, channels)
    ensures length * FLOAT_SIZE <= BufferSize(samples, BytesPerFrame(channels, FLOAT_SIZE))
    ensures CompleteFrames(length * FLOAT_SIZE, BytesPerFrame(channels, FLOAT_SIZE)) == length / channels
  {
    assert samples * (channels * 4) == samples * channels * 4;
    var q, bytes := length / channels, channels * 4;
    var r := length - q * channels;
    assert length * 4 == q * bytes + r * 4 by {
      assert q * bytes == q * channels * 4;
    }
    Quotient(length * 4, bytes, q, r * 4);
  }

  lemma {:induction false} Quotient(n: nat, d: nat, q: nat, r: nat)
    requires d > 0 && n == q * d + r && r < d
    ensures n / d == q
  {
    var p := n / d;
    assert p * d <= n < p * d + d;
    NextFrame(d, p);
    NextFrame(d, q);
    if p < q {
      Times(p + 1, q, d);
    } else if q < p {
      Times(q + 1, p, d);
    }
  }

  lemma {:induction false} FramesRead(samples: seq<real>, scratch: seq<real>, channels: nat, count: nat,
                                      planes: seq<seq<real>>)
    requires channels > 0 && count == |samples| / channels && |samples| <= |scratch| && scratch[..|samples|] == samples
    requires |planes| == channels && Rectangular(planes, count)
    requires forall k, j :: 0 <= k < channels && 0 <= j < count ==> planes[k][j] == At(scratch, channels, j, k)
    ensures Interleaved(planes, count, count) == samples[..WholeLength(|samples|, channels)]
  {
    assert count * channels == WholeLength(|samples|, channels);
    hide Index, WholeLength;
    var dealt := Planes(samples, channels, count);
    forall k | 0 <= k < channels
      ensures planes[k] == dealt[k]
    {
      forall j | 0 <= j < count
        ensures planes[k][j] == dealt[k][j]
      {
        IndexBelow(channels, count, j, k);
        assert scratch[..|samples|][Index(channels, j, k)] == scratch[Index(channels, j, k)];
      }
    }
    assert planes == dealt;
    ReinterleavedIs(samples, channels, count, count);
  }

  /** The input side of the encoder: ask until nothing comes. */
  method EncodeAll(calls: seq<Read>, channels: nat, requested: nat) returns (encoded: seq<real>)
    requires channels > 0
    requires forall i :: 0 <= i < |calls| ==> |calls[i].samples| <= BufferSize(requested, channels)
    ensures encoded == Encoded(calls, channels)
  {
    encoded := [];
    hide BufferSize, Count, WholeLength;
    assert calls[0..] == calls;
    for i := 0 to |calls|
      invariant encoded + Encoded(calls[i..], channels) == Encoded(calls, channels)
    {
      var count, part := Request(calls[i], channels, requested);
      assert calls[i..][0] == calls[i] && calls[i..][1..] == calls[i + 1..];
      if count == 0 {
        assert encoded + [] == encoded;
        return;
      }
      Associates(encoded, part, Encoded(calls[i + 1..], channels));
      encoded := encoded + part;
    }
    assert encoded + [] == encoded;
  }
}
