/**
 * Value types shared by the three pipelines: the audio host's sample formats
 * and stream configurations, the WAV container's sample specification, and
 * the Result type that stands for the program's error returns and panics.
 */
module Audio {

  /** A value that may be absent, like Rust's `Option`. */
  datatype Option<+T> = None | Some(value: T)

  /** An operation that either yields a value or an error. */
  datatype Result<+T, +E> = Ok(value: T) | Err(error: E)

  /** The native sample encodings an audio device can negotiate. */
  datatype SampleFormat = I8 | I16 | I32 | I64 | U8 | U16 | U32 | U64 | F32 | F64

  /** Size in bytes of one sample of the given native format. */
  function SampleSize(f: SampleFormat): (n: nat)
    ensures n in {1, 2, 4, 8}
    ensures n == 1 <==> f in {I8, U8}
    ensures n == 2 <==> f in {I16, U16}
    ensures n == 4 <==> f in {I32, U32, F32}
  {
    match f
    case I8 => 1
    case U8 => 1
    case I16 => 2
    case U16 => 2
    case I32 => 4
    case U32 => 4
    case F32 => 4
    case I64 => 8
    case U64 => 8
    case F64 => 8
  }

  /** The buffer-size range a device reports for a configuration. */
  datatype SupportedBufferSize = Range(min: nat, max: nat) | Unknown

  /** A negotiated device configuration. */
  datatype StreamConfig = StreamConfig(
    channels: nat,
    sampleRate: nat,
    bufferSize: SupportedBufferSize,
    sampleFormat: SampleFormat)

  /** The sample encoding recorded in a WAV header. */
  datatype WavSampleFormat = Int | Float

  /** The sample specification of a WAV file. */
  datatype WavSpec = WavSpec(
    channels: nat,
    sampleRate: nat,
    bitsPerSample: nat,
    sampleFormat: WavSampleFormat)
}
