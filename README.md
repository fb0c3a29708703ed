# asak sample bookkeeping in Dafny

asak is a terminal audio tool with three commands: play a WAV file, record
one, and monitor an input device through an output device. Around the audio
devices, threads and terminal rendering, each command has a small core of
exact sample bookkeeping. This project models that core and proves its
properties:

- **Playback** (`playback.dfy`, module `Playback`) covers:
  - choosing how to read the file from its WAV specification;
  - the 24-bit sign extension;
  - splitting the interleaved stream round-robin into channels;
  - duplicating a mono file for a stereo device;
  - one resampling pass per device channel;
  - the output format table;
  - the output callback, which fills its buffer frame by frame from a shared cursor that wraps at the file length.
- **Record** (`record.dfy`, module `Record`) covers:
  - the output name rewrite (every ".wav" removed, then ".wav" appended);
  - the WAV specification derived from the input configuration;
  - the capture format table;
  - the recording session, with its writer slot that is taken exactly once at stop and its append-only waveform buffer;
  - the chart's window of the last `min(width * 128, len)` samples in chunks of 128.
- **Monitor** (`monitor.dfy`, module `Monitor`) covers:
  - the sample-rate check and the shared two-channel configuration;
  - the format table;
  - the per-pair level table behind the meters;
  - the two gauges and the "-inf" label rule;
  - the waveform ring with overwrite on full;
  - the input callback gated on the monitoring flag;
  - the output callback.
- **Shared value types** (`audio.dfy`, module `Audio`): the device sample formats and their byte sizes, stream configurations and WAV specifications.
- **Slice helpers** (`slices.dfy`, module `Slices`): Rust's `chunks`, with its count, indexing and partition lemmas.
- **Level arithmetic** (`levels.dfy`, module `Levels`): sum of squares, mean square and peak over real samples.

How the model represents things:

- Samples that are only moved are a type parameter. Samples that are summed or compared are `real`.
- The 24-bit container is a `bv32`.
- Panics and early error returns are `Err` values.
- State the program changes in place is held in classes:
  - `OutputFill` holds the playback cursor;
  - `CaptureSession` holds the recording writer slot and waveform;
  - `MonitorCallbacks` holds the monitoring flag, the ring and the sample channel.
- Their methods carry `modifies` clauses and state the whole new state.

## Model

| member | source | states |
|---|---|---|
| Audio.SampleSize | src/record.rs:337 | I8/U8 take one byte, I16/U16 two, I32/U32/F32 four, the 64-bit formats eight |
| Slices.Chunks | src/record.rs:108-110 | Rust's `chunks(size)`: no pieces exactly for empty input, and every piece holds between 1 and size elements |
| Slices.ChunksCount | src/record.rs:108-110 | `chunks(size)` yields ceil(n / size) pieces, at least one for non-empty input |
| Slices.ChunkAt | src/record.rs:108-110 | piece k is the slice from k * size to (k + 1) * size, cut at the end of the input |
| Slices.ChunksPartition | src/record.rs:108-110 | every piece holds 1 to size elements, all but the last exactly size, and the pieces concatenate back to the input |
| Levels.Abs | src/monitor.rs:379 | the magnitude is non-negative and is the value or its negation |
| Levels.SumSquares | src/record.rs:33 | a sum of squares is never negative |
| Levels.MeanSquare | src/record.rs:32-36 | a mean square is never negative |
| Levels.Peak | src/monitor.rs:377-381 | the peak of a frame is non-negative, at least every sample's magnitude, and equal to one of them |
| Levels.SilentSumSquares | src/monitor.rs:373 | all-zero samples have a zero sum of squares |
| Levels.SilentLevel | src/monitor.rs:373-381 | all-zero samples have mean square 0 and peak 0 |
| Playback.SelectReader | src/playback.rs:86-130 | integer files are read at exactly 16, 24 or 32 bits and any other depth panics; float files are always read as 32-bit floats |
| Playback.SignExtend24 | src/playback.rs:99-104 | the low 24 bits are kept; with bit 23 set the top byte becomes all ones, otherwise the container is unchanged |
| Playback.SignExtendRaw | src/playback.rs:99-104 | a raw 24-bit value at or above 2^23 becomes that value minus 2^24; a smaller one keeps its value |
| Playback.SignExtendInRange | src/playback.rs:99-104 | a container already holding a 24-bit signed value is unchanged |
| Playback.SignExtendBits | src/playback.rs:99-104 | with bit 23 set the top byte is filled with ones, otherwise nothing changes |
| Playback.Deinterleave | src/playback.rs:78-129 | one channel per file channel; channel c receives its share of the stream, and its j-th sample is stream sample j * n + c |
| Playback.DeinterleaveIsChannels | src/playback.rs:84-129 | the decoded channels are exactly the round-robin channels of the stream |
| Playback.ChannelsCoverStream | src/playback.rs:84-129 | stream sample k is found in channel k mod n at index k div n, so nothing is lost |
| Playback.ChannelsPartition | src/playback.rs:78-129 | channel lengths add up to the sample count; an earlier channel is never shorter, and never more than one sample longer, than a later one |
| Playback.DuplicateMono | src/playback.rs:133-135 | a copy of channel 0 is appended exactly for a mono file on a two-channel device; afterwards every device channel has a file channel exactly when the file had enough channels or was mono on stereo |
| Playback.ResampleChannels | src/playback.rs:140-152 | device channel i is the resampling of file channel i; a device channel without a file channel panics |
| Playback.PrepareChannels | src/playback.rs:76-152 | from stream to played channels: no file channels or too few panics; otherwise device channel i resamples round-robin channel i, or channel 0 for a mono file |
| Playback.SelectOutput | src/playback.rs:159-263 | F32, I16, U16, I32 and U32 devices get an output stream; every other format panics |
| Playback.Advance | src/playback.rs:173 | one frame moves the cursor to p + 1 if that is below the length, otherwise back to 0 |
| Playback.CursorStays | src/playback.rs:138 | a cursor below the length (or at 0) stays so however many frames pass |
| Playback.CursorIsModular | src/playback.rs:173-174 | after k frames the cursor is (p + k) mod length |
| Playback.CursorPeriod | src/playback.rs:155 | from 0 the cursor visits 1, 2, ..., length - 1 and is back at 0 after exactly length frames |
| Playback.OutputFill.constructor | src/playback.rs:155 | the cursor starts at 0 |
| Playback.OutputFill.Fill | src/playback.rs:164-175 | slot k receives channel k mod channels at the cursor of frame k div channels, or keeps its old contents when there is no such channel; the cursor advances once per frame, ceil(len / channels) times |
| Record.RemoveAll | src/record.rs:188 | removing occurrences never lengthens the name |
| Record.OutputName | src/record.rs:188 | the output name always ends in ".wav" |
| Record.RemoveAllUnchanged | src/record.rs:188 | removal leaves a name unchanged exactly when it contains no ".wav", and shortens it otherwise |
| Record.OutputNamePlain | src/record.rs:188 | a name without ".wav" just gets ".wav" appended |
| Record.OutputNameKeepsWav | src/record.rs:188 | "stem.wav" is kept when the stem has no ".wav" |
| Record.OutputNameNotIdempotent | src/record.rs:188 | ".w.wavav" becomes ".wav.wav", which becomes ".wav": the rewrite is not idempotent |
| Record.WavSpecFromConfig | src/record.rs:333-344 | channels and rate are copied, the depth is 8 bits per sample byte, and the encoding is float exactly for F32 |
| Record.SelectCapture | src/record.rs:250-305 | I8, I16, I32 and F32 inputs get a stream; any other format is an error naming that format |
| Record.CaptureSpecs | src/record.rs:333-344 | the four capture formats give 8-bit, 16-bit and 32-bit integer files and 32-bit float files |
| Record.RecordedFilePlayable | src/record.rs:333-344 | a recorded file is accepted by the playback reader exactly when it was not captured from an I8 device |
| Record.CaptureSession.constructor | src/record.rs:241-244 | the writer is created, with the derived specification, in a slot holding it |
| Record.CaptureSession.BuildStream | src/record.rs:250-305 | the stream runs exactly when the format is supported; the error comes after the writer exists |
| Record.CaptureSession.WriteInputData | src/record.rs:173-184 | with a writer in the slot every input sample is written, in order; with an empty slot nothing is written |
| Record.CaptureSession.OnInput | src/record.rs:253-296 | the waveform buffer only grows, by the normalised input; the raw input goes to the writer |
| Record.CaptureSession.Stop | src/record.rs:312-316 | the stream is paused, the slot is emptied, and what the writer held is finalised, once |
| Record.SessionScenario | src/record.rs:239-316 | the finalised file holds exactly the samples written before the stop; later callbacks and a second stop change nothing |
| Record.RecentSamples | src/record.rs:104-106 | the window is the newest min(width * 128, len) samples |
| Record.WaveformPoints | src/record.rs:108-117 | there are points exactly when there are samples and a non-zero width; point x sits at x and its level is never negative |
| Record.WaveformPointsShape | src/record.rs:102-117 | the chart gets ceil(window / 128) points, no more than the width; point x sits at x and measures the samples from x * 128 up to the next 128 boundary |
| Record.WindowBound | src/record.rs:104 | a window shorter than width * 128 needs no more than width chunks |
| Monitor.StartMonitoring | src/monitor.rs:66-113 | different rates are refused first; then F32, I16 and U16 inputs get one two-channel configuration with the input's rate, buffer size and format, and any other format is refused |
| Monitor.OutputOnlyRateMatters | src/monitor.rs:67-80 | of the output device's configuration only the sample rate affects the outcome |
| Monitor.LevelOf | src/monitor.rs:373-381 | a frame's mean square and peak are non-negative, and the peak bounds every sample's magnitude in the frame |
| Monitor.LevelTable | src/monitor.rs:370-384 | one entry per chunk of two samples, ceil(n / 2) of them, each with non-negative mean square and peak |
| Monitor.CalculateLevel | src/monitor.rs:370-384 | the loop produces exactly the level table: one entry per chunk of two samples |
| Monitor.LevelAt | src/monitor.rs:372-381 | entry k is the level of samples 2k and 2k + 1, or of 2k alone at the end |
| Monitor.LevelCount | src/monitor.rs:372 | there are ceil(n / 2) entries, and none exactly for no samples |
| Monitor.LevelEntry | src/monitor.rs:377-381 | entry k's peak is non-negative, at least the magnitude of each of its samples, and one of them |
| Monitor.SilentLevels | src/monitor.rs:373-381 | silence gives mean square 0 and peak 0 in every entry |
| Monitor.Gauges | src/monitor.rs:263-267 | gauges are drawn only when there are two entries, from entries 0 and 1 |
| Monitor.GaugesAreFirstFrames | src/monitor.rs:261-267 | the gauges appear once there are three samples; "left" and "right" are samples 0-1 and 2-3, not per-channel levels |
| Monitor.DigitChar | src/monitor.rs:323 | a digit character has the digit's value |
| Monitor.NatToString | src/monitor.rs:323 | a decimal spelling is non-empty, all digits, with no leading zero |
| Monitor.NatRoundTrip | src/monitor.rs:323 | reading a decimal spelling gives the number back |
| Monitor.IntToString | src/monitor.rs:323 | a minus sign appears exactly for negative values, followed by digits |
| Monitor.IntRoundTrip | src/monitor.rs:323 | reading an integer's spelling gives the integer back |
| Monitor.NumberIsNotNegInf | src/monitor.rs:321-324 | no integer is spelled "-inf" |
| Monitor.DbLabel | src/monitor.rs:321-324 | the label is "-inf" exactly below -90 dB, and otherwise the decimal value |
| Monitor.DbLabelRoundTrip | src/monitor.rs:337-340 | a numeric label reads back as its dB value |
| Monitor.PushOverwrite | src/monitor.rs:145 | a push never takes the ring past its capacity |
| Monitor.PushAll | src/monitor.rs:143-145 | pushing any number of samples never takes the ring past its capacity |
| Monitor.PushAllKeepsLast | src/monitor.rs:143-145 | the ring holds exactly the most recent `capacity` samples, oldest first |
| Monitor.RingLength | src/monitor.rs:39 | the ring holds min(capacity, old + pushed) samples |
| Monitor.PushOverwriteIsLast | src/monitor.rs:145 | a single overwrite push keeps the last `capacity` samples |
| Monitor.LastOfLast | src/monitor.rs:143-145 | trimming to the last n and then appending keeps the same last n |
| Monitor.MonitorCallbacks.constructor | src/monitor.rs:39-42 | monitoring starts on, with an empty ring and an empty channel |
| Monitor.MonitorCallbacks.OnInput | src/monitor.rs:140-150 | while monitoring, every sample goes into the ring (overwriting when full) and onto the channel, in order; otherwise nothing changes |
| Monitor.MonitorCallbacks.OnOutput | src/monitor.rs:160-164 | every output slot is assigned: the next queued sample in order, or the default sample once none is left |
| Monitor.MonitorCallbacks.StopMonitoring | src/monitor.rs:198-200 | Enter clears the monitoring flag |
| Monitor.StopThenInput | src/monitor.rs:141 | after the stop, input reaches neither the ring nor the output side |

## Left out

- Device and stream control: host selection, the device lookup, default configurations, building, playing and pausing streams. The stream configurations are parameters. In the monitor, the streams are local values of `build_stream` and are dropped when it returns; the model does not represent stream lifetimes.
- Threads, atomics, locks and the recording thread's polling loop: the model runs each callback to completion, one at a time. The possibility of another callback interleaving with the cursor's load and store is not modelled.
- Floating point: the normalising divisions on read and capture, the denormalising casts, and the U16/U32 offset formula on output. Also the square root that turns a mean square into an RMS value, the `log10` and the saturating float-to-int casts that produce the dB value and the gauge ratios, and the red/green clip colour. Levels carry the mean square, and `DbLabel` takes the integer dB value as given.
- Resampling: the interpolating converter is a function parameter. The lengths of its outputs are whatever that function returns.
- WAV I/O: the hound reader is represented by the stream of decoded samples it delivers. A read error (`result?`) is not modelled. The writer is the sequence of samples handed to it. Creation, write and finalize errors are not modelled: the program unwraps the creation (src/record.rs:243), ignores write errors and unwraps the finalize. `CaptureSession.constructor` therefore cannot fail.
- Playback.OutputFill.constructor: requires every resampled channel to hold at least max(length, 1) samples, `length` being the first file channel's length before resampling. The program does not ensure this: whenever a resampled channel holds fewer than max(length, 1) samples, the callback's read `resampled_data[j][p]` (src/playback.rs:169) indexes out of bounds, a panic the model excludes. How long the resampled channels are is up to the foreign converter.
- Playback.OutputFill.constructor: requires more than zero device channels, since `step_by(0)` panics.
- Monitor.MonitorCallbacks.OnInput: the channel is modelled as an unbounded queue. A bounded send blocks while the channel is full, and that blocking is not modelled.
- Monitor.MonitorCallbacks.OnOutput: a blocking receive on an empty channel is modelled by its outcome once the sender is gone, the default sample. Waiting for the input side is not modelled.
- Monitor.MonitorCallbacks.constructor: requires a ring capacity above zero, although `--buffer-size 0` reaches `start_monitoring`. With capacity 0, what the ring's `push_overwrite` does and how the channel behaves are decided by the ring-buffer and channel libraries, not by this source. A zero-capacity crossbeam channel is a rendezvous channel, whose sends wait for a matching receive, and this sequential model cannot represent that.
- The record command creates the WAV writer, and with it the output file, at src/record.rs:243, before the capture format is checked at src/record.rs:300-304. An unsupported format therefore leaves an empty file behind. The model keeps this order: `CaptureSession.constructor` fills the slot, then `BuildStream` reports the error.
- The terminal interface (layout, rendering, key polling, timers and progress text), the command-line parsing and prompts, default file names, directory listing and the build script for manual pages and completions.
