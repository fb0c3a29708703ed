/**
 * The sample bookkeeping of the playback command: choosing how to read the
 * file, 24-bit sign extension, splitting the interleaved file stream into
 * channels, mono-to-stereo duplication, per-channel resampling, the output
 * format table and the output callback that serves frames from a shared,
 * wrapping cursor.
 *
 * Samples are a type parameter `T`: the steps modelled here only move them.
 */
module Playback {
  import opened Audio
  import opened Slices

  /**
   * The conditions under which the playback command panics: the two explicit
   * panics, a file with no channels (the first sample's channel is a
   * remainder by zero, or there is no first channel to measure), and a
   * device channel with no file channel to read.
   */
  datatype Panic = UnsupportedBitDepth | UnsupportedSampleFormat | NoChannels | ChannelOutOfRange

  /** How the decode loop reads the samples of a WAV file. */
  datatype SampleReader = ReadI16 | ReadI24 | ReadI32 | ReadF32

  // ---------------------------------------------------------------------
  // Input format table
  // ---------------------------------------------------------------------

  /**
   * Integer files are read at 16, 24 or 32 bits and any other depth panics;
   * float files are read as 32-bit floats whatever their stated depth.
   */
  function SelectReader(spec: WavSpec): (r: Result<SampleReader, Panic>)
    ensures r.Ok? <==> spec.sampleFormat == Float || spec.bitsPerSample in {16, 24, 32}
    ensures r.Err? ==> r.error == UnsupportedBitDepth
    ensures spec.sampleFormat == Float ==> r == Ok(ReadF32)
    ensures r.Ok? && r.value != ReadF32 ==>
              spec.sampleFormat == Int && ReaderBits(r.value) == spec.bitsPerSample
  {
    match spec.sampleFormat
    case Float => Ok(ReadF32)
    case Int =>
      if spec.bitsPerSample == 16 then Ok(ReadI16)
      else if spec.bitsPerSample == 24 then Ok(ReadI24)
      else if spec.bitsPerSample == 32 then Ok(ReadI32)
      else Err(UnsupportedBitDepth)
  }

  /** Bit depth of the integer readers. */
  function ReaderBits(r: SampleReader): nat
  {
    match r
    case ReadI16 => 16
    case ReadI24 => 24
    case ReadI32 => 32
    case ReadF32 => 32
  }

  // ---------------------------------------------------------------------
  // 24-bit sign extension
  // ---------------------------------------------------------------------

  /**
   * The 24-bit branch of the decode loop, on the 32-bit container the WAV
   * reader hands back: if bit 23 is set, every bit above it is set too.
   */
  function SignExtend24(sample: bv32): (r: bv32)
    ensures r & 0xff_ffff == sample & 0xff_ffff
    ensures sample & 0x80_0000 != 0 ==> r & 0xff00_0000 == 0xff00_0000
    ensures sample & 0x80_0000 == 0 ==> r == sample
  {
    if sample & (1 << 23) != 0 then sample | !0xff_ffff else sample
  }

  /** The two's-complement value of a 32-bit container. */
  function AsI32(b: bv32): int
  {
    if b < 0x8000_0000 then b as int else b as int - 0x1_0000_0000
  }

  /** A raw 24-bit pattern at or above 2^23 stands for that value minus 2^24. */
  lemma SignExtendRaw(raw: bv32)
    requires raw < 0x100_0000
    ensures AsI32(SignExtend24(raw)) == if raw >= 0x80_0000 then raw as int - 0x100_0000 else raw as int
  {
    SignExtendBits(raw);
    if raw >= 0x80_0000 {
      NoCarry(raw);
    }
  }

  /**
   * A container whose value already fits in 24 signed bits (its top nine bits
   * all clear or all set) is left as it is.
   */
  lemma SignExtendInRange(b: bv32)
    requires b < 0x80_0000 || b >= 0xff80_0000
    ensures SignExtend24(b) == b
  {
  }

  lemma SignExtendBits(b: bv32)
    requires b < 0x100_0000
    ensures SignExtend24(b) == if b >= 0x80_0000 then b + 0xff00_0000 else b
  {
  }

  lemma NoCarry(b: bv32)
    requires b < 0x100_0000
    ensures (b + 0xff00_0000) as int == b as int + 0xff00_0000
  {
  }

  // ---------------------------------------------------------------------
  // Splitting the interleaved stream into channels
  // ---------------------------------------------------------------------

  /** How many of the first `total` stream samples go to channel `c` of `n`. */
  function ChannelLength(total: nat, n: nat, c: nat): nat
    requires n > 0
  {
    total / n + (if c < total % n then 1 else 0)
  }

  lemma MulMono(a: nat, b: nat, n: nat)
    requires a <= b
    ensures a * n <= b * n
  {
  }

  /** The j-th sample of channel c lies inside the stream. */
  lemma ChannelIndexBound(total: nat, n: nat, c: nat, j: nat)
    requires n > 0 && c < n && j < ChannelLength(total, n, c)
    ensures j * n + c < total
  {
    var q, r := total / n, total % n;
    assert total == q * n + r;
    if c < r {
      MulMono(j, q, n);
    } else {
      MulMono(j, q - 1, n);
      assert (q - 1) * n == q * n - n;
    }
  }

  /** One more stream sample lengthens exactly channel `total % n`, at index `total / n`. */
  lemma ChannelLengthStep(total: nat, n: nat)
    requires n > 0
    ensures forall c | 0 <= c < n ::
              ChannelLength(total + 1, n, c) == ChannelLength(total, n, c) + (if c == total % n then 1 else 0)
    ensures ChannelLength(total, n, total % n) == total / n
    ensures (total / n) * n + total % n == total
  {
    var q, r := total / n, total % n;
    if r + 1 < n {
      DivModUnique(total + 1, n, q, r + 1);
    } else {
      DivModUnique(total + 1, n, q + 1, 0);
    }
  }

  /** Channel c of the stream: every n-th sample, starting at sample c. */
  function Channel<T>(stream: seq<T>, n: nat, c: nat): (r: seq<T>)
    requires n > 0 && c < n
    ensures |r| == ChannelLength(|stream|, n, c)
  {
    seq(ChannelLength(|stream|, n, c),
        j requires 0 <= j < ChannelLength(|stream|, n, c) =>
          ChannelIndexBound(|stream|, n, c, j); stream[j * n + c])
  }

  /**
   * The decode loop: the k-th stream sample is pushed onto channel
   * `k % numChannels`, so channel c's j-th sample is stream sample
   * `j * numChannels + c`.
   */
  method Deinterleave<T>(stream: seq<T>, numChannels: nat) returns (fileData: seq<seq<T>>)
    requires numChannels > 0
    ensures |fileData| == numChannels
    ensures forall c | 0 <= c < numChannels :: |fileData[c]| == ChannelLength(|stream|, numChannels, c)
    ensures forall c, j | 0 <= c < numChannels && 0 <= j < |fileData[c]| ::
              j * numChannels + c < |stream| && fileData[c][j] == stream[j * numChannels + c]
  {
    fileData := seq(numChannels, _ => []);
    var sampleCount := 0;
    while sampleCount < |stream|
      invariant 0 <= sampleCount <= |stream|
      invariant |fileData| == numChannels
      invariant forall c | 0 <= c < numChannels ::
                  |fileData[c]| == ChannelLength(sampleCount, numChannels, c)
      invariant forall c, j | 0 <= c < numChannels && 0 <= j < |fileData[c]| ::
                  j * numChannels + c < sampleCount && fileData[c][j] == stream[j * numChannels + c]
    {
      var channel := sampleCount % numChannels;
      ChannelLengthStep(sampleCount, numChannels);
      fileData := fileData[channel := fileData[channel] + [stream[sampleCount]]];
      sampleCount := sampleCount + 1;
    }
  }

  /** The decode loop's result is the list of `Channel`s of the stream. */
  lemma DeinterleaveIsChannels<T>(stream: seq<T>, n: nat, fileData: seq<seq<T>>)
    requires n > 0 && |fileData| == n
    requires forall c | 0 <= c < n :: |fileData[c]| == ChannelLength(|stream|, n, c)
    requires forall c, j | 0 <= c < n && 0 <= j < |fileData[c]| ::
               j * n + c < |stream| && fileData[c][j] == stream[j * n + c]
    ensures forall c | 0 <= c < n :: fileData[c] == Channel(stream, n, c)
  {
  }

  /** Every stream sample k is found in channel `k % n` at index `k / n`. */
  lemma ChannelsCoverStream<T>(stream: seq<T>, n: nat, k: nat)
    requires n > 0 && k < |stream|
    ensures k / n < |Channel(stream, n, k % n)|
    ensures Channel(stream, n, k % n)[k / n] == stream[k]
  {
    CoverIndex(|stream|, n, k);
  }

  lemma CoverIndex(total: nat, n: nat, k: nat)
    requires n > 0 && k < total
    ensures k / n < ChannelLength(total, n, k % n)
    ensures (k / n) * n + k % n == k
  {
    var q, r := k / n, k % n;
    var tq, tr := total / n, total % n;
    assert k == q * n + r;
    assert total == tq * n + tr;
    if q > tq {
      MulMono(tq + 1, q, n);
      assert false;
    }
    if q == tq && r >= tr {
      assert false;
    }
  }

  /** Sum of the channel lengths of a channel list. */
  function TotalLength<T>(chans: seq<seq<T>>): nat
  {
    if chans == [] then 0 else |chans[0]| + TotalLength(chans[1..])
  }

  lemma {:induction false} SuffixTotal<T>(chans: seq<seq<T>>, total: nat, n: nat, q: nat, r: nat, m: nat)
    requires n > 0 && |chans| == n && m <= n
    requires q == total / n && r == total % n
    requires forall c | 0 <= c < n :: |chans[c]| == q + (if c < r then 1 else 0)
    ensures TotalLength(chans[m..]) == (n - m) * q + (if m < r then r - m else 0)
    decreases n - m
  {
    if m == n {
      assert chans[m..] == [];
    } else {
      SuffixTotal(chans, total, n, q, r, m + 1);
      assert chans[m..][0] == chans[m];
      assert chans[m..][1..] == chans[m + 1..];
      MulSucc(n - (m + 1), q);
    }
  }

  /**
   * The channels partition the stream: their lengths add up to the sample
   * count, and an earlier channel is never shorter, nor more than one
   * sample longer, than a later one.
   */
  lemma ChannelsPartition<T>(stream: seq<T>, n: nat, fileData: seq<seq<T>>)
    requires n > 0 && |fileData| == n
    requires forall c | 0 <= c < n :: |fileData[c]| == ChannelLength(|stream|, n, c)
    ensures TotalLength(fileData) == |stream|
    ensures forall c1, c2 | 0 <= c1 <= c2 < n ::
              |fileData[c2]| <= |fileData[c1]| <= |fileData[c2]| + 1
  {
    var q, r := |stream| / n, |stream| % n;
    assert forall c | 0 <= c < n :: |fileData[c]| == q + (if c < r then 1 else 0);
    SuffixTotal(fileData, |stream|, n, q, r, 0);
    assert fileData[0..] == fileData;
    assert |stream| == n * q + r;
  }

  // ---------------------------------------------------------------------
  // Mono files on stereo devices
  // ---------------------------------------------------------------------

  /**
   * A mono file on a two-channel device gets its only channel twice; every
   * other combination is left as decoded. Afterwards there is a file channel
   * for every device channel exactly when the file had at least as many
   * channels as the device, or was mono on a stereo device.
   */
  function DuplicateMono<T>(fileData: seq<seq<T>>, sysChan: nat): (r: seq<seq<T>>)
    ensures sysChan == 2 && |fileData| == 1 ==> r == [fileData[0], fileData[0]]
    ensures !(sysChan == 2 && |fileData| == 1) ==> r == fileData
    ensures sysChan <= |r| <==> sysChan <= |fileData| || (sysChan == 2 && |fileData| == 1)
  {
    if sysChan == 2 && |fileData| == 1 then fileData + [fileData[0]] else fileData
  }

  // ---------------------------------------------------------------------
  // Resampling every device channel
  // ---------------------------------------------------------------------

  /**
   * The resampling loop runs over the device's channels and reads file
   * channel i for each of them; `resample` stands for the interpolating
   * converter from the file's rate to the device's rate. A device channel
   * with no file channel behind it is an out-of-range index, a panic.
   */
  method ResampleChannels<T>(fileData: seq<seq<T>>, sysChan: nat, resample: seq<T> -> seq<T>)
    returns (r: Result<seq<seq<T>>, Panic>)
    ensures r.Err? <==> sysChan > |fileData|
    ensures r.Err? ==> r.error == ChannelOutOfRange
    ensures r.Ok? ==> |r.value| == sysChan
    ensures r.Ok? ==> forall i | 0 <= i < sysChan :: r.value[i] == resample(fileData[i])
  {
    var resampled := seq(sysChan, _ => []);
    var i := 0;
    while i < sysChan
      invariant 0 <= i <= sysChan
      invariant |resampled| == sysChan
      invariant i <= |fileData|
      invariant forall k | 0 <= k < i :: resampled[k] == resample(fileData[k])
    {
      if i == |fileData| {
        return Err(ChannelOutOfRange);
      }
      resampled := resampled[i := resample(fileData[i])];
      i := i + 1;
    }
    return Ok(resampled);
  }

  /**
   * From the decoded stream to the channels the output callback plays:
   * split by the file's channel count, duplicate a mono file for a stereo
   * device, then resample one file channel per device channel.
   */
  method PrepareChannels<T>(stream: seq<T>, numChannels: nat, sysChan: nat, resample: seq<T> -> seq<T>)
    returns (r: Result<seq<seq<T>>, Panic>)
    ensures r.Err? <==>
              numChannels == 0 || !(sysChan <= numChannels || (sysChan == 2 && numChannels == 1))
    ensures numChannels == 0 ==> r == Err(NoChannels)
    ensures r.Err? && numChannels > 0 ==> r.error == ChannelOutOfRange
    ensures r.Ok? ==> |r.value| == sysChan
    ensures r.Ok? ==> forall i | 0 <= i < sysChan ::
              r.value[i] == resample(Channel(stream, numChannels, if numChannels == 1 then 0 else i))
  {
    if numChannels == 0 {
      return Err(NoChannels);
    }
    var fileData := Deinterleave(stream, numChannels);
    DeinterleaveIsChannels(stream, numChannels, fileData);
    fileData := DuplicateMono(fileData, sysChan);
    r := ResampleChannels(fileData, sysChan, resample);
  }

  // ---------------------------------------------------------------------
  // Output format table
  // ---------------------------------------------------------------------

  /** Only F32, I16, U16, I32 and U32 devices get an output stream; any other format panics. */
  function SelectOutput(f: SampleFormat): (r: Result<SampleFormat, Panic>)
    ensures r.Ok? <==> f in {F32, I16, U16, I32, U32}
    ensures r.Ok? ==> r.value == f
    ensures r.Err? ==> r.error == UnsupportedSampleFormat
  {
    match f
    case F32 => Ok(F32)
    case I16 => Ok(I16)
    case U16 => Ok(U16)
    case I32 => Ok(I32)
    case U32 => Ok(U32)
    case _ => Err(UnsupportedSampleFormat)
  }

  // ---------------------------------------------------------------------
  // The shared playback cursor
  // ---------------------------------------------------------------------

  /** One frame's cursor step: forward, or back to 0 at the end of the file. */
  function Advance(p: nat, length: nat): (r: nat)
    ensures r == 0 || r == p + 1
    ensures r == p + 1 <==> p + 1 < length
  {
    if p + 1 < length then p + 1 else 0
  }

  /** The cursor after k frames that started at p. */
  function AdvanceN(p: nat, k: nat, length: nat): nat
  {
    if k == 0 then p else Advance(AdvanceN(p, k - 1, length), length)
  }

  /** A cursor position the output callback can be in: inside the file, or 0. */
  predicate CursorOk(p: nat, length: nat)
  {
    p < length || p == 0
  }

  /** The cursor stays a valid position however many frames are served. */
  lemma {:induction false} CursorStays(p: nat, k: nat, length: nat)
    requires CursorOk(p, length)
    ensures CursorOk(AdvanceN(p, k, length), length)
  {
    if k > 0 {
      CursorStays(p, k - 1, length);
    }
  }

  /** Inside a non-empty file, k frames move the cursor k positions, modulo the length. */
  lemma {:induction false} CursorIsModular(p: nat, k: nat, length: nat)
    requires p < length
    ensures AdvanceN(p, k, length) == (p + k) % length
  {
    if k == 0 {
      DivModUnique(p, length, 0, p);
    } else {
      CursorIsModular(p, k - 1, length);
      ModStep(p + k - 1, length);
    }
  }

  lemma ModStep(x: nat, length: nat)
    requires length > 0
    ensures (x + 1) % length == if x % length + 1 < length then x % length + 1 else 0
  {
    var q, r := x / length, x % length;
    assert x == q * length + r;
    if r + 1 < length {
      DivModUnique(x + 1, length, q, r + 1);
    } else {
      DivModUnique(x + 1, length, q + 1, 0);
    }
  }

  /** From 0 the cursor returns to 0 after exactly `length` frames, and not before. */
  lemma CursorPeriod(length: nat)
    requires length > 0
    ensures AdvanceN(0, length, length) == 0
    ensures forall k | 0 < k < length :: AdvanceN(0, k, length) == k
  {
    CursorIsModular(0, length, length);
    DivModUnique(length, length, 1, 0);
    forall k | 0 < k < length
      ensures AdvanceN(0, k, length) == k
    {
      CursorIsModular(0, k, length);
      DivModUnique(k, length, 0, k);
    }
  }

  /** Number of frames a callback buffer of `len` slots holds: ceil(len / channels). */
  function Frames(len: nat, channels: nat): nat
    requires channels > 0
  {
    (len + channels - 1) / channels
  }

  // ---------------------------------------------------------------------
  // The output callback
  // ---------------------------------------------------------------------

  /**
   * The state the output callback closes over: the device's channel count,
   * the file length that bounds the cursor, the resampled channels and the
   * shared cursor itself.
   */
  class OutputFill<T> {
    const channels: nat
    const length: nat
    const resampled: seq<seq<T>>
    var pointer: nat

    /**
     * The cursor is a valid position and every resampled channel can be read
     * at every valid position.
     */
    ghost predicate Valid()
      reads this
    {
      && channels > 0
      && CursorOk(pointer, length)
      && forall j | 0 <= j < |resampled| :: length <= |resampled[j]| && 0 < |resampled[j]|
    }

    constructor (channels: nat, length: nat, resampled: seq<seq<T>>)
      requires channels > 0
      requires forall j | 0 <= j < |resampled| :: length <= |resampled[j]| && 0 < |resampled[j]|
      ensures Valid()
      ensures this.channels == channels && this.length == length && this.resampled == resampled
      ensures pointer == 0
    {
      this.channels := channels;
      this.length := length;
      this.resampled := resampled;
      pointer := 0;
    }

    /**
     * Slot k of a buffer after a callback that started with the cursor at p0:
     * channel `k % channels` read at the cursor of frame `k / channels`, or
     * the slot's old contents when there is no such resampled channel.
     */
    ghost function Slot(p0: nat, before: seq<T>, k: nat): T
      reads this
      requires Valid() && CursorOk(p0, length) && k < |before|
    {
      var j := k % channels;
      if j < |resampled| then
        CursorStays(p0, k / channels, length);
        resampled[j][AdvanceN(p0, k / channels, length)]
      else before[k]
    }

    /**
     * The output callback: frames start at 0, channels, 2 * channels, ...;
     * every slot of a frame reads its channel at the same cursor, and the
     * cursor steps once per frame.
     */
    method Fill(data: array<T>)
      requires Valid()
      modifies this, data
      ensures Valid()
      ensures pointer == AdvanceN(old(pointer), Frames(data.Length, channels), length)
      ensures forall k | 0 <= k < data.Length :: data[k] == Slot(old(pointer), old(data[..]), k)
    {
      ghost var p0 := pointer;
      ghost var before := data[..];
      ghost var f := 0;
      var i := 0;
      while i < data.Length
        invariant Valid()
        invariant i == f * channels
        invariant f > 0 ==> (f - 1) * channels < data.Length
        invariant pointer == AdvanceN(p0, f, length)
        invariant forall k | 0 <= k < data.Length ::
                    data[k] == if k < i then Slot(p0, before, k) else before[k]
      {
        var p := pointer;
        var j := 0;
        while j < channels
          invariant 0 <= j <= channels
          invariant pointer == p
          invariant forall k | 0 <= k < data.Length ::
                      data[k] == if k < i + j then Slot(p0, before, k) else before[k]
        {
          if i + j < data.Length {
            FrameSlot(f, j, channels);
            if j < |resampled| {
              data[i + j] := resampled[j][p];
            }
          }
          j := j + 1;
        }
        pointer := Advance(p, length);
        i := i + channels;
        f := f + 1;
      }
      FramesCount(data.Length, channels, f);
    }
  }

  lemma FrameSlot(f: nat, j: nat, channels: nat)
    requires j < channels
    ensures (f * channels + j) / channels == f
    ensures (f * channels + j) % channels == j
  {
    DivModUnique(f * channels + j, channels, f, j);
  }

  lemma FramesCount(len: nat, channels: nat, f: nat)
    requires channels > 0
    requires f * channels >= len
    requires f > 0 ==> (f - 1) * channels < len
    ensures f == Frames(len, channels)
  {
    if f > 0 {
      assert (f - 1) * channels == f * channels - channels;
    }
    DivModUnique(len + channels - 1, channels, f, len + channels - 1 - f * channels);
  }
}
