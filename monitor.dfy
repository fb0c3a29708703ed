/**
 * The control and level logic of the monitor command: the sample-rate check
 * and the shared two-channel configuration, the format table, the per-pair
 * level computation behind the meters, the dB label rule, and the two
 * device callbacks with the monitoring flag that gates the input side.
 */
module Monitor {
  import opened Audio
  import opened Slices
  import opened Levels

  // ---------------------------------------------------------------------
  // Starting a monitoring session
  // ---------------------------------------------------------------------

  /** The two ways `start_monitoring` gives up before building a stream. */
  datatype MonitorError = SampleRateMismatch | UnsupportedSampleFormat

  /**
   * What `build_stream` is instantiated with: the sample type, the one
   * configuration used for both devices, and the capacity of the ring and
   * of the sample channel.
   */
  datatype Duplex = Duplex(sampleType: SampleFormat, config: StreamConfig, bufferLength: nat)

  /** The monitor moves F32, I16 and U16 samples. */
  predicate MonitorFormat(f: SampleFormat)
  {
    f in {F32, I16, U16}
  }

  /**
   * Differing default rates are refused first; otherwise both streams are
   * built from the one configuration made at lines 75-80 of the monitor
   * source: two channels at the input's rate, buffer size and format,
   * provided that format is one the monitor moves.
   */
  function StartMonitoring(input: StreamConfig, output: StreamConfig, bufferLength: nat)
    : (r: Result<Duplex, MonitorError>)
    ensures input.sampleRate != output.sampleRate ==> r == Err(SampleRateMismatch)
    ensures r.Ok? <==> input.sampleRate == output.sampleRate && MonitorFormat(input.sampleFormat)
    ensures r.Err? && input.sampleRate == output.sampleRate ==> r.error == UnsupportedSampleFormat
    ensures r.Ok? ==> r.value.sampleType == input.sampleFormat && r.value.bufferLength == bufferLength
    ensures r.Ok? ==> r.value.config.channels == 2
    ensures r.Ok? ==> r.value.config.sampleRate == input.sampleRate == output.sampleRate
    ensures r.Ok? ==> r.value.config.bufferSize == input.bufferSize
    ensures r.Ok? ==> r.value.config.sampleFormat == input.sampleFormat
  {
    if input.sampleRate != output.sampleRate then
      Err(SampleRateMismatch)
    else
      var config := StreamConfig(2, input.sampleRate, input.bufferSize, input.sampleFormat);
      if MonitorFormat(input.sampleFormat) then Ok(Duplex(input.sampleFormat, config, bufferLength))
      else Err(UnsupportedSampleFormat)
  }

  /**
   * Of the output device's default configuration only the rate matters:
   * its channel count, buffer size and format never reach the streams.
   */
  lemma OutputOnlyRateMatters(input: StreamConfig, o1: StreamConfig, o2: StreamConfig, bufferLength: nat)
    requires o1.sampleRate == o2.sampleRate
    ensures StartMonitoring(input, o1, bufferLength) == StartMonitoring(input, o2, bufferLength)
  {
  }

  // ---------------------------------------------------------------------
  // Levels for the meters
  // ---------------------------------------------------------------------

  /** One meter entry: the mean square (whose root is the RMS) and the peak of a frame. */
  datatype Level = Level(meanSquare: real, peak: real)

  /** A frame's level: non-negative energy, and a peak bounding every sample's magnitude. */
  function LevelOf(frame: seq<real>): (r: Level)
    requires |frame| > 0
    ensures r.meanSquare >= 0.0 && r.peak >= 0.0
    ensures forall i | 0 <= i < |frame| :: Abs(frame[i]) <= r.peak
  {
    Level(MeanSquare(frame), Peak(frame))
  }

  /** The meter entries: one per chunk of two samples, ceil(n / 2) of them. */
  function LevelTable(samples: seq<real>): (r: seq<Level>)
    ensures |r| == (|samples| + 1) / 2
    ensures forall k | 0 <= k < |r| :: r[k].meanSquare >= 0.0 && r[k].peak >= 0.0
  {
    ChunksPartition(samples, 2);
    ChunksCount(samples, 2);
    var frames := Chunks(samples, 2);
    seq(|frames|, k requires 0 <= k < |frames| => LevelOf(frames[k]))
  }

  /**
   * The level loop: walks the samples two at a time, the last frame holding
   * a lone sample when the count is odd, and appends one entry per frame.
   */
  method CalculateLevel(samples: seq<real>) returns (v: seq<Level>)
    ensures v == LevelTable(samples)
  {
    v := [];
    var i := 0;
    while i < |samples|
      invariant i == 2 * |v| && |v| <= |LevelTable(samples)|
      invariant v == LevelTable(samples)[..|v|]
    {
      var frame := samples[i..Min(i + 2, |samples|)];
      LevelStep(samples, v);
      v := v + [LevelOf(frame)];
      i := i + 2;
    }
    LevelEnd(samples, v);
  }

  /** One more frame extends the computed prefix of the table by one entry. */
  lemma LevelStep(samples: seq<real>, v: seq<Level>)
    requires 2 * |v| < |samples| && v == LevelTable(samples)[..|v|]
    ensures |v| < |LevelTable(samples)|
    ensures v + [LevelOf(samples[2 * |v|..Min(2 * |v| + 2, |samples|)])] == LevelTable(samples)[..|v| + 1]
  {
    var table := LevelTable(samples);
    var k := |v|;
    LevelAt(samples, k);
    var entry := LevelOf(samples[2 * k..Min(2 * k + 2, |samples|)]);
    assert entry == table[k];
    assert table[..k + 1] == table[..k] + [entry];
  }

  /** Once the frames run out, the prefix is the whole table. */
  lemma LevelEnd(samples: seq<real>, v: seq<Level>)
    requires 2 * |v| >= |samples| && |v| <= |LevelTable(samples)| && v == LevelTable(samples)[..|v|]
    ensures v == LevelTable(samples)
  {
    assert LevelTable(samples)[..|v|] == LevelTable(samples);
  }

  lemma LevelTableShape(samples: seq<real>)
    ensures forall k | 0 <= k < |Chunks(samples, 2)| :: |Chunks(samples, 2)[k]| > 0
    ensures |LevelTable(samples)| == |Chunks(samples, 2)|
    ensures forall k | 0 <= k < |Chunks(samples, 2)| ::
              LevelTable(samples)[k] == LevelOf(Chunks(samples, 2)[k])
  {
    ChunksPartition(samples, 2);
  }

  /** Entry k is the level of samples 2k and 2k + 1, or of 2k alone at the end. */
  lemma LevelAt(samples: seq<real>, k: nat)
    requires k < |LevelTable(samples)|
    ensures 2 * k < |samples|
    ensures LevelTable(samples)[k] == LevelOf(samples[2 * k..Min(2 * k + 2, |samples|)])
  {
    LevelTableShape(samples);
    ChunkAt(samples, 2, k);
  }

  /** There are ceil(n / 2) entries, and none for no samples. */
  lemma LevelCount(samples: seq<real>)
    ensures |LevelTable(samples)| == (|samples| + 1) / 2
    ensures |LevelTable(samples)| == 0 <==> samples == []
  {
    ChunksCount(samples, 2);
  }

  /**
   * Entry k covers samples 2k and 2k + 1 (just 2k for a lone last sample);
   * its peak is never negative, at least every magnitude in the frame, and
   * one of them.
   */
  lemma LevelEntry(samples: seq<real>, k: nat)
    requires k < |LevelTable(samples)|
    ensures 2 * k < |samples|
    ensures LevelTable(samples)[k] == LevelOf(samples[2 * k..Min(2 * k + 2, |samples|)])
    ensures LevelTable(samples)[k].peak >= 0.0
    ensures forall i | 2 * k <= i < Min(2 * k + 2, |samples|) :: Abs(samples[i]) <= LevelTable(samples)[k].peak
    ensures exists i | 2 * k <= i < Min(2 * k + 2, |samples|) :: Abs(samples[i]) == LevelTable(samples)[k].peak
  {
    LevelAt(samples, k);
    var frame := samples[2 * k..Min(2 * k + 2, |samples|)];
    assert forall i | 2 * k <= i < Min(2 * k + 2, |samples|) :: samples[i] == frame[i - 2 * k];
    var j :| 0 <= j < |frame| && Abs(frame[j]) == Peak(frame);
    assert samples[2 * k + j] == frame[j];
  }

  /** Silence reads as zero energy and zero peak in every entry. */
  lemma SilentLevels(samples: seq<real>, k: nat)
    requires AllZero(samples) && k < |LevelTable(samples)|
    ensures LevelTable(samples)[k] == Level(0.0, 0.0)
  {
    LevelAt(samples, k);
    var frame := samples[2 * k..Min(2 * k + 2, |samples|)];
    assert forall i | 0 <= i < |frame| :: frame[i] == samples[2 * k + i];
    SilentLevel(frame);
  }

  // ---------------------------------------------------------------------
  // The two gauges
  // ---------------------------------------------------------------------

  /** The gauges are drawn from entries 0 and 1, and only when both exist. */
  function Gauges(levels: seq<Level>): (r: Option<(Level, Level)>)
    ensures r.Some? <==> |levels| >= 2
    ensures r.Some? ==> r.value.0 == levels[0] && r.value.1 == levels[1]
  {
    if |levels| < 2 then None else Some((levels[0], levels[1]))
  }

  /**
   * The "left" and "right" gauges are the first and second frames of the
   * ring, samples 0-1 and 2-3, not aggregates over each channel; they
   * appear once the ring holds three samples.
   */
  lemma GaugesAreFirstFrames(samples: seq<real>)
    ensures Gauges(LevelTable(samples)).Some? <==> |samples| >= 3
    ensures |samples| >= 3 ==>
              Gauges(LevelTable(samples)) ==
                Some((LevelOf(samples[0..2]), LevelOf(samples[2..Min(4, |samples|)])))
  {
    LevelCount(samples);
    if |samples| >= 3 {
      LevelEntry(samples, 0);
      LevelEntry(samples, 1);
    }
  }

  // ---------------------------------------------------------------------
  // The dB label
  // ---------------------------------------------------------------------

  predicate IsDigit(c: char)
  {
    '0' <= c <= '9'
  }

  predicate AllDigits(s: string)
  {
    forall i | 0 <= i < |s| :: IsDigit(s[i])
  }

  function DigitChar(d: nat): (c: char)
    requires d < 10
    ensures IsDigit(c) && (c - '0') as nat == d
  {
    "0123456789"[d]
  }

  /** The decimal spelling of a natural number: digits only, no leading zero. */
  function NatToString(n: nat): (r: string)
    ensures |r| > 0 && AllDigits(r)
    ensures |r| > 1 ==> r[0] != '0'
    decreases n
  {
    if n < 10 then [DigitChar(n)] else NatToString(n / 10) + [DigitChar(n % 10)]
  }

  /** The value of a string of decimal digits. */
  function ParseNat(s: string): nat
    requires AllDigits(s)
  {
    if s == [] then 0 else ParseNat(s[..|s| - 1]) * 10 + (s[|s| - 1] - '0') as nat
  }

  lemma {:induction false} NatRoundTrip(n: nat)
    ensures ParseNat(NatToString(n)) == n
    decreases n
  {
    if n >= 10 {
      NatRoundTrip(n / 10);
      var s := NatToString(n);
      assert s[..|s| - 1] == NatToString(n / 10);
    }
  }

  /** The decimal spelling of an integer, with a minus sign when negative. */
  function IntToString(i: int): (r: string)
    ensures |r| > 0
    ensures r[0] == '-' <==> i < 0
    ensures AllDigits(if i < 0 then r[1..] else r)
  {
    if i < 0 then "-" + NatToString(-i) else NatToString(i)
  }

  function ParseInt(s: string): int
    requires |s| > 0 && AllDigits(if s[0] == '-' then s[1..] else s)
  {
    if s[0] == '-' then -(ParseNat(s[1..]) as int) else ParseNat(s)
  }

  lemma IntRoundTrip(i: int)
    ensures ParseInt(IntToString(i)) == i
  {
    if i < 0 {
      NatRoundTrip(-i);
      assert IntToString(i)[1..] == NatToString(-i);
    } else {
      NatRoundTrip(i);
    }
  }

  const NegInf: string := "-inf"

  /** Below -90 dB the gauge reads "-inf"; otherwise it shows the integer value. */
  function DbLabel(db: int): (r: string)
    ensures r == NegInf <==> db < -90
    ensures db >= -90 ==> r == IntToString(db)
  {
    if db < -90 then NegInf
    else
      NumberIsNotNegInf(db);
      IntToString(db)
  }

  lemma NumberIsNotNegInf(i: int)
    ensures IntToString(i) != NegInf
  {
    if i < 0 {
      var t := NatToString(-i);
      assert IntToString(i)[1] == t[0];
      assert IsDigit(t[0]);
    }
  }

  /** A numeric label gives its dB value back. */
  lemma DbLabelRoundTrip(db: int)
    requires db >= -90
    ensures DbLabel(db) != NegInf && ParseInt(DbLabel(db)) == db
  {
    IntRoundTrip(db);
  }

  // ---------------------------------------------------------------------
  // The waveform ring
  // ---------------------------------------------------------------------

  /** The last min(n, |s|) elements of s. */
  function Last<T>(s: seq<T>, n: nat): seq<T>
  {
    s[|s| - Min(n, |s|)..]
  }

  /** A push into a full ring drops the oldest sample first. */
  function PushOverwrite(ring: seq<real>, capacity: nat, x: real): (r: seq<real>)
    requires 0 < capacity && |ring| <= capacity
    ensures |r| <= capacity
  {
    if |ring| == capacity then ring[1..] + [x] else ring + [x]
  }

  /** The ring after pushing xs one sample at a time, first to last. */
  function PushAll(ring: seq<real>, capacity: nat, xs: seq<real>): (r: seq<real>)
    requires 0 < capacity && |ring| <= capacity
    ensures |r| <= capacity
    decreases |xs|
  {
    if xs == [] then ring
    else PushOverwrite(PushAll(ring, capacity, xs[..|xs| - 1]), capacity, xs[|xs| - 1])
  }

  /**
   * The ring keeps exactly the most recent `capacity` samples, oldest
   * first, of everything it held and everything pushed since.
   */
  lemma {:induction false} PushAllKeepsLast(ring: seq<real>, capacity: nat, xs: seq<real>)
    requires 0 < capacity && |ring| <= capacity
    ensures PushAll(ring, capacity, xs) == Last(ring + xs, capacity)
    decreases |xs|
  {
    if xs != [] {
      var init, x := xs[..|xs| - 1], xs[|xs| - 1];
      var before := PushAll(ring, capacity, init);
      PushAllKeepsLast(ring, capacity, init);
      PushOverwriteIsLast(before, capacity, x);
      LastOfLast(ring + init, [x], capacity);
      assert (ring + init) + [x] == ring + xs;
    }
  }

  /** Ring and pushed samples together: min(capacity, |ring| + |xs|) samples. */
  lemma RingLength(ring: seq<real>, capacity: nat, xs: seq<real>)
    requires 0 < capacity && |ring| <= capacity
    ensures |PushAll(ring, capacity, xs)| == Min(capacity, |ring| + |xs|)
  {
    PushAllKeepsLast(ring, capacity, xs);
  }

  lemma PushOverwriteIsLast(ring: seq<real>, capacity: nat, x: real)
    requires 0 < capacity && |ring| <= capacity
    ensures PushOverwrite(ring, capacity, x) == Last(ring + [x], capacity)
  {
    if |ring| == capacity {
      assert (ring + [x])[1..] == ring[1..] + [x];
    }
  }

  /** Keeping the last n of a, then of what follows, keeps the last n of it all. */
  lemma LastOfLast<T>(a: seq<T>, b: seq<T>, n: nat)
    ensures Last(Last(a, n) + b, n) == Last(a + b, n)
  {
    var la := Last(a, n);
    assert la + b == (a + b)[|a| - |la|..];
  }

  // ---------------------------------------------------------------------
  // The device callbacks
  // ---------------------------------------------------------------------

  /** Every sample converted, in order. */
  function Convert<T>(f: T -> real, data: seq<T>): seq<real>
  {
    seq(|data|, i requires 0 <= i < |data| => f(data[i]))
  }

  /**
   * The state the two callbacks share: the monitoring flag, the waveform
   * ring the meters read, and the samples sent to the output side but not
   * yet received. `toReal` is the conversion of a sample to a float and
   * `defaultSample` the sample type's default value (for U16 that is 0, not
   * the middle of the range).
   */
  class MonitorCallbacks<T> {
    const capacity: nat
    const toReal: T -> real
    const defaultSample: T
    var isMonitoring: bool
    var ring: seq<real>
    var queue: seq<T>

    ghost predicate Valid()
      reads this
    {
      0 < capacity && |ring| <= capacity
    }

    constructor (capacity: nat, toReal: T -> real, defaultSample: T)
      requires capacity > 0
      ensures Valid()
      ensures this.capacity == capacity && this.toReal == toReal && this.defaultSample == defaultSample
      ensures isMonitoring && ring == [] && queue == []
    {
      this.capacity := capacity;
      this.toReal := toReal;
      this.defaultSample := defaultSample;
      isMonitoring := true;
      ring := [];
      queue := [];
    }

    /**
     * The input callback: while monitoring, every sample, in order, is
     * pushed into the ring (displacing the oldest when full) and sent to
     * the output side; once monitoring has stopped it does nothing.
     */
    method OnInput(data: seq<T>)
      requires Valid()
      modifies this`ring, this`queue
      ensures Valid()
      ensures !isMonitoring ==> ring == old(ring) && queue == old(queue)
      ensures isMonitoring ==>
                ring == PushAll(old(ring), capacity, Convert(toReal, data))
      ensures isMonitoring ==> queue == old(queue) + data
    {
      if isMonitoring {
        ghost var ring0 := ring;
        ghost var xs := Convert(toReal, data);
        var k := 0;
        while k < |data|
          invariant 0 <= k <= |data|
          invariant |ring| <= capacity
          invariant ring == PushAll(ring0, capacity, xs[..k])
          invariant queue == old(queue) + data[..k]
        {
          assert xs[..k + 1][..k] == xs[..k];
          ring := PushOverwrite(ring, capacity, toReal(data[k]));
          queue := queue + [data[k]];
          assert data[..k + 1] == data[..k] + [data[k]];
          k := k + 1;
        }
        assert xs[..k] == xs;
        assert data[..k] == data;
      }
    }

    /**
     * The output callback: every slot of the buffer is assigned, in order,
     * the next sample received from the input side, or the default sample
     * once nothing more is to be received.
     */
    method OnOutput(data: array<T>)
      modifies this`queue, data
      ensures forall k | 0 <= k < data.Length ::
                data[k] == if k < |old(queue)| then old(queue)[k] else defaultSample
      ensures queue == old(queue)[Min(data.Length, |old(queue)|)..]
    {
      var k := 0;
      while k < data.Length
        invariant 0 <= k <= data.Length
        invariant queue == old(queue)[Min(k, |old(queue)|)..]
        invariant forall m | 0 <= m < k :: data[m] == if m < |old(queue)| then old(queue)[m] else defaultSample
      {
        if |queue| > 0 {
          data[k] := queue[0];
          queue := queue[1..];
        } else {
          data[k] := defaultSample;
        }
        k := k + 1;
      }
    }

    /** Pressing Enter clears the flag; the ring and the queue are left as they are. */
    method StopMonitoring()
      modifies this`isMonitoring
      ensures !isMonitoring
    {
      isMonitoring := false;
    }
  }

  /** Once monitoring has stopped, input no longer reaches the ring or the output side. */
  method StopThenInput<T>(callbacks: MonitorCallbacks<T>, data: seq<T>)
    requires callbacks.Valid()
    modifies callbacks
    ensures callbacks.Valid() && !callbacks.isMonitoring
    ensures callbacks.ring == old(callbacks.ring) && callbacks.queue == old(callbacks.queue)
  {
    callbacks.StopMonitoring();
    callbacks.OnInput(data);
  }
}
