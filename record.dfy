/**
 * The bookkeeping of the record command: normalising the output file name,
 * deriving the WAV specification from the input configuration, the table
 * of capture formats, the recording session (its writer slot, which is
 * emptied exactly once at the end, and its append-only waveform buffer) and
 * the selection of the display window.
 */
module Record {
  import opened Audio
  import opened Slices
  import opened Levels
  import Playback

  datatype RecordError = UnsupportedSampleFormat(format: SampleFormat)

  // ---------------------------------------------------------------------
  // Output file name
  // ---------------------------------------------------------------------

  const Wav: string := ".wav"

  /** `pat` occurs in `s` at position i. */
  predicate MatchAt(s: string, pat: string, i: nat)
  {
    i + |pat| <= |s| && s[i..i + |pat|] == pat
  }

  /** `pat` occurs nowhere in `s`. */
  ghost predicate NoMatch(s: string, pat: string)
  {
    forall i: nat :: !MatchAt(s, pat, i)
  }

  /** Dropping the first character keeps a string free of the pattern. */
  lemma NoMatchTail(s: string, pat: string)
    requires |s| > 0 && NoMatch(s, pat)
    ensures NoMatch(s[1..], pat)
  {
    forall i: nat
      ensures !MatchAt(s[1..], pat, i)
    {
      if i + |pat| <= |s[1..]| {
        assert s[1..][i..i + |pat|] == s[i + 1..i + 1 + |pat|];
        assert !MatchAt(s, pat, i + 1);
      }
    }
  }

  /**
   * Rust's `str::replace(pat, "")`: occurrences are found left to right and
   * removed; scanning resumes after each removed occurrence and never looks
   * back at what removal joined together.
   */
  function RemoveAll(s: string, pat: string): (r: string)
    requires |pat| > 0
    ensures |r| <= |s|
    decreases |s|
  {
    if |s| < |pat| then s
    else if s[..|pat|] == pat then RemoveAll(s[|pat|..], pat)
    else [s[0]] + RemoveAll(s[1..], pat)
  }

  /** The output name: every ".wav" removed, then ".wav" appended. */
  function OutputName(output: string): (r: string)
    ensures |r| >= 4 && r[|r| - 4..] == Wav
  {
    RemoveAll(output, Wav) + Wav
  }

  /**
   * Removal leaves a string unchanged exactly when the pattern does not occur
   * in it; otherwise it makes the string shorter.
   */
  lemma {:induction false} RemoveAllUnchanged(s: string, pat: string)
    requires |pat| > 0
    ensures NoMatch(s, pat) ==> RemoveAll(s, pat) == s
    ensures !NoMatch(s, pat) ==> |RemoveAll(s, pat)| < |s|
    ensures RemoveAll(s, pat) == s <==> NoMatch(s, pat)
    decreases |s|
  {
    if |s| < |pat| {
      forall i: nat
        ensures !MatchAt(s, pat, i)
      {
      }
    } else if s[..|pat|] == pat {
      assert s[0..0 + |pat|] == pat;
      assert MatchAt(s, pat, 0);
      assert |RemoveAll(s[|pat|..], pat)| <= |s| - |pat|;
    } else {
      RemoveAllUnchanged(s[1..], pat);
      if NoMatch(s, pat) {
        NoMatchTail(s, pat);
        assert [s[0]] + s[1..] == s;
      } else {
        var i: nat :| MatchAt(s, pat, i);
        assert i != 0;
        SliceOfSlice(s, 1, i - 1, i - 1 + |pat|);
        assert MatchAt(s[1..], pat, i - 1);
        assert |[s[0]] + RemoveAll(s[1..], pat)| < |s|;
      }
    }
  }

  /** A name without ".wav" just gets ".wav" appended. */
  lemma OutputNamePlain(name: string)
    requires NoMatch(name, Wav)
    ensures OutputName(name) == name + Wav
  {
    RemoveAllUnchanged(name, Wav);
  }

  /** "<stem>.wav" is kept as it is when the stem has no ".wav" of its own. */
  lemma OutputNameKeepsWav(stem: string)
    requires NoMatch(stem, Wav)
    ensures OutputName(stem + Wav) == stem + Wav
  {
    StripSuffix(stem);
  }

  lemma {:induction false} StripSuffix(stem: string)
    requires NoMatch(stem, Wav)
    ensures RemoveAll(stem + Wav, Wav) == stem
    decreases |stem|
  {
    var t := stem + Wav;
    if stem == [] {
      assert t == Wav;
      assert t[4..] == [];
    } else {
      assert t[..4] != Wav by {
        if |stem| >= 4 {
          assert t[..4] == stem[0..0 + 4];
          assert !MatchAt(stem, Wav, 0);
        } else {
          assert t[..4][|stem|] == t[|stem|] == '.';
          assert Wav[|stem|] != '.';
        }
      }
      NoMatchTail(stem, Wav);
      StripSuffix(stem[1..]);
      assert t[1..] == stem[1..] + Wav;
      assert [stem[0]] + stem[1..] == stem;
    }
  }

  /**
   * The rewrite is not idempotent: removal can join the pieces around an
   * occurrence into a new occurrence, which a second pass then removes.
   */
  lemma OutputNameNotIdempotent()
    ensures OutputName(".w.wavav") == ".wav.wav"
    ensures OutputName(".wav.wav") == ".wav"
  {
    var s := ".w.wavav";
    assert RemoveAll(s, Wav) == ".w" + RemoveAll(".wavav", Wav) by {
      assert s[..4][2] != Wav[2];
      assert RemoveAll(s, Wav) == "." + RemoveAll("w.wavav", Wav);
      assert "w.wavav"[..4][0] != Wav[0];
      assert "w.wavav"[1..] == ".wavav";
    }
    assert RemoveAll(".wavav", Wav) == "av" by {
      assert ".wavav"[..4] == Wav;
      assert ".wavav"[4..] == "av";
    }
    assert ".w" + "av" == ".wav";
    var t := ".wav.wav";
    assert RemoveAll(t, Wav) == "" by {
      assert t[..4] == Wav;
      assert t[4..] == Wav;
      assert Wav[..4] == Wav && Wav[4..] == "";
    }
  }

  // ---------------------------------------------------------------------
  // WAV specification and capture formats
  // ---------------------------------------------------------------------

  /**
   * The WAV specification of the output file: channels and rate copied,
   * 8 bits per byte of the native sample, float exactly for F32.
   */
  function WavSpecFromConfig(config: StreamConfig): (spec: WavSpec)
    ensures spec.channels == config.channels && spec.sampleRate == config.sampleRate
    ensures spec.bitsPerSample == 8 * SampleSize(config.sampleFormat)
    ensures spec.sampleFormat == Float <==> config.sampleFormat == F32
  {
    WavSpec(
      config.channels,
      config.sampleRate,
      SampleSize(config.sampleFormat) * 8,
      if config.sampleFormat == F32 then Float else Int)
  }

  /** Only I8, I16, I32 and F32 inputs get a capture stream. */
  function SelectCapture(f: SampleFormat): (r: Result<SampleFormat, RecordError>)
    ensures r.Ok? <==> f in {I8, I16, I32, F32}
    ensures r.Ok? ==> r.value == f
    ensures r.Err? ==> r.error == UnsupportedSampleFormat(f)
  {
    match f
    case I8 => Ok(I8)
    case I16 => Ok(I16)
    case I32 => Ok(I32)
    case F32 => Ok(F32)
    case _ => Err(UnsupportedSampleFormat(f))
  }

  /** The depths and encodings of files the four capture formats produce. */
  lemma CaptureSpecs(config: StreamConfig)
    requires SelectCapture(config.sampleFormat).Ok?
    ensures var spec := WavSpecFromConfig(config);
      match config.sampleFormat
      case I8 => spec.bitsPerSample == 8 && spec.sampleFormat == Int
      case I16 => spec.bitsPerSample == 16 && spec.sampleFormat == Int
      case I32 => spec.bitsPerSample == 32 && spec.sampleFormat == Int
      case F32 => spec.bitsPerSample == 32 && spec.sampleFormat == Float
      case _ => false
  {
  }

  /**
   * A recorded file can be played back unless it was captured from an I8
   * device: its 8-bit integer depth is not one the playback reader accepts.
   */
  lemma RecordedFilePlayable(config: StreamConfig)
    requires SelectCapture(config.sampleFormat).Ok?
    ensures Playback.SelectReader(WavSpecFromConfig(config)).Ok? <==> config.sampleFormat != I8
  {
    CaptureSpecs(config);
  }

  // ---------------------------------------------------------------------
  // The recording session
  // ---------------------------------------------------------------------

  /**
   * The state the recording thread and its input callback share: the
   * writer slot (`Some` of what the writer has been given while the file is
   * open), the finalised file, the waveform buffer the display reads, and
   * whether the input stream runs.
   */
  class CaptureSession<T> {
    const spec: WavSpec
    const format: SampleFormat
    const normalise: T -> real
    var slot: Option<seq<T>>
    var finalized: Option<seq<T>>
    var waveform: seq<real>
    var streaming: bool

    /** The writer is created, with the specification of the input configuration, before any stream. */
    constructor (config: StreamConfig, normalise: T -> real)
      ensures spec == WavSpecFromConfig(config) && format == config.sampleFormat
      ensures this.normalise == normalise
      ensures slot == Some([]) && finalized == None && waveform == [] && !streaming
    {
      spec := WavSpecFromConfig(config);
      format := config.sampleFormat;
      this.normalise := normalise;
      slot := Some([]);
      finalized := None;
      waveform := [];
      streaming := false;
    }

    /**
     * Building the input stream: an unsupported format is an error, reported
     * after the writer, and so the output file, already exists.
     */
    method BuildStream() returns (r: Result<SampleFormat, RecordError>)
      modifies this`streaming
      ensures r == SelectCapture(format)
      ensures streaming <==> r.Ok?
    {
      r := SelectCapture(format);
      streaming := r.Ok?;
    }

    /**
     * Writes every input sample, in order, while the slot holds a writer, and
     * nothing once the slot is empty.
     */
    method WriteInputData(input: seq<T>)
      modifies this`slot
      ensures slot == if old(slot).Some? then Some(old(slot).value + input) else None
    {
      if slot.Some? {
        ghost var before := slot.value;
        assert before + input[..0] == before;
        var i := 0;
        while i < |input|
          invariant 0 <= i <= |input|
          invariant slot == Some(before + input[..i])
        {
          slot := Some(slot.value + [input[i]]);
          assert input[..i + 1] == input[..i] + [input[i]];
          assert before + input[..i + 1] == (before + input[..i]) + [input[i]];
          i := i + 1;
        }
        assert input[..|input|] == input;
      }
    }

    /**
     * The input callback: the normalised samples are appended to the
     * waveform buffer, nothing is removed from it, and the raw samples go to
     * the writer.
     */
    method OnInput(data: seq<T>)
      modifies this`waveform, this`slot
      ensures waveform == old(waveform) + seq(|data|, i requires 0 <= i < |data| => normalise(data[i]))
      ensures old(waveform) <= waveform
      ensures slot == if old(slot).Some? then Some(old(slot).value + data) else None
    {
      waveform := waveform + seq(|data|, i requires 0 <= i < |data| => normalise(data[i]));
      WriteInputData(data);
    }

    /**
     * Stopping: the stream is paused, then the writer is taken out of the
     * slot and finalised; a slot that is already empty finalises nothing.
     */
    method Stop()
      modifies this`streaming, this`slot, this`finalized
      ensures !streaming && slot == None
      ensures finalized == if old(slot).Some? then Some(old(slot).value) else old(finalized)
    {
      streaming := false;
      var taken := slot;
      slot := None;
      if taken.Some? {
        finalized := Some(taken.value);
      }
    }
  }

  /**
   * A whole session: the file holds exactly the samples of the callbacks
   * that ran before the stop, and a callback after it changes neither the
   * file nor the slot.
   */
  method SessionScenario<T>(config: StreamConfig, normalise: T -> real, a: seq<T>, b: seq<T>, late: seq<T>)
    returns (file: Option<seq<T>>)
    ensures file == Some(a + b)
  {
    var session := new CaptureSession(config, normalise);
    assert [] + a == a;
    session.OnInput(a);
    session.OnInput(b);
    session.Stop();
    session.OnInput(late);
    session.Stop();
    file := session.finalized;
  }

  // ---------------------------------------------------------------------
  // Display window
  // ---------------------------------------------------------------------

  const ChunkSize: nat := 128

  /** The newest `min(width * 128, |data|)` samples of the waveform buffer. */
  function RecentSamples(data: seq<real>, width: nat): (r: seq<real>)
    ensures |r| == Min(width * ChunkSize, |data|)
    ensures data == data[..|data| - |r|] + r
  {
    data[|data| - Min(width * ChunkSize, |data|)..]
  }

  /**
   * The chart points: the window cut into chunks of 128, the x-th chunk
   * plotted at x with its mean square.
   */
  function WaveformPoints(data: seq<real>, width: nat): (r: seq<(nat, real)>)
    ensures |r| > 0 <==> |data| > 0 && width > 0
    ensures forall x | 0 <= x < |r| :: r[x].0 == x && r[x].1 >= 0.0
  {
    var chunks := Chunks(RecentSamples(data, width), ChunkSize);
    ChunksPartition(RecentSamples(data, width), ChunkSize);
    seq(|chunks|, x requires 0 <= x < |chunks| => (x, MeanSquare(chunks[x])))
  }

  /**
   * There are ceil(samples_to_use / 128) points, no more than the width;
   * point x sits at x and measures the samples from x * 128 to the next
   * chunk boundary or the end of the window.
   */
  lemma WaveformPointsShape(data: seq<real>, width: nat)
    ensures var n := Min(width * ChunkSize, |data|);
      |WaveformPoints(data, width)| == (n + ChunkSize - 1) / ChunkSize <= width
    ensures forall x | 0 <= x < |WaveformPoints(data, width)| ::
      var recent := RecentSamples(data, width);
      x * ChunkSize < |recent| &&
      WaveformPoints(data, width)[x] ==
        (x, MeanSquare(recent[x * ChunkSize .. Min((x + 1) * ChunkSize, |recent|)]))
  {
    var recent := RecentSamples(data, width);
    var n := |recent|;
    ChunksCount(recent, ChunkSize);
    if n == width * ChunkSize {
      DivModUnique(n + ChunkSize - 1, ChunkSize, width, ChunkSize - 1);
    } else {
      WindowBound(n, width);
    }
    forall x | 0 <= x < |WaveformPoints(data, width)|
      ensures x * ChunkSize < n
      ensures WaveformPoints(data, width)[x] ==
        (x, MeanSquare(recent[x * ChunkSize .. Min((x + 1) * ChunkSize, n)]))
    {
      ChunkAt(recent, ChunkSize, x);
    }
  }

  lemma WindowBound(n: nat, width: nat)
    requires n < width * ChunkSize
    ensures (n + ChunkSize - 1) / ChunkSize <= width
  {
    var q, r := (n + ChunkSize - 1) / ChunkSize, (n + ChunkSize - 1) % ChunkSize;
    assert n + ChunkSize - 1 == q * ChunkSize + r;
    if q > width {
      MulGap(q, width, ChunkSize);
      assert false;
    }
  }
}
