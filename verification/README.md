# Verified model of sip-relay's media path and call lifecycle

This project models three parts of sip-relay and proves what they promise over every input, every
run or every interleaving:

- **The streaming transcoder** (`internal/audio`): mu-law tables, PCM16 byte framing, the
  anti-aliasing FIR filter, the Lagrange resampler and the two composed pipelines. Each stage is a
  class with a ghost field holding the whole stream it has been fed; its methods are proved to emit
  exactly what a stateless specification of that stream gains. Chunk invariance follows once, for any
  such stage (`Common.RunOutput`).
- **Outbound playout** (`internal/call` writer and ring, `internal/rtp`): byte ring, cushion,
  barge-in, media clock, packet numbering. The class `OutboundWriter` refines a small state machine
  with a log; conservation, order, jitter tolerance and the clock theorems are proved about that machine,
  and `Wire.RunLoop` carries them to the object. `Supply` joins clock and buffer: which arrival times of
  audio leave no gap. `Interrupts` says which bytes of the inputs go out, wherever barge-ins fall.
  `Relay` and `Backend` join both ends: which messages end the stream, what the caller hears after a
  barge-in, and that however the backend cuts its audio into messages the same packets go out. Media
  timeout and port probing are in `Sockets`.
- **Call and dialog lifecycle** (`internal/call/call.go`, `internal/sip/server.go`): mutex sections
  are atomic steps, `sync.Once` is a blocking once, the deferred calls of `run` are an ordered
  unwind and `mediaWG.Wait` is a join. Invariants are proved over every interleaving of any number of
  dialogs; so are a bound on the steps of each, that every BYE, CANCEL, shutdown or failed handshake
  brings its call to completion, that a call is filed under its tag as long as it is up and no longer,
  who ends the dialog for what reason, and, in `Ledger`, that no message is lost or handled twice.

| file | module | models |
|---|---|---|
| Common.dfy, Division.dfy, Signal.dfy | Common, Division, Signal | chunks and streams, integer quotients, zero-prefixed streams and rounding |
| Mulaw.dfy, Pcm.dfy | Mulaw, Pcm | internal/audio/mulaw.go, internal/audio/pcm.go |
| Lowpass.dfy | Lowpass | internal/audio/lowpass.go |
| Lagrange.dfy, Resample.dfy, Streaming.dfy | same names | internal/audio/resample.go: weights, stateless specification, the object |
| Transcoder.dfy, Relay.dfy, Backend.dfy | Transcoder, Relay, Backend | internal/audio/transcoder.go, the loops of internal/websocket/stream.go that drive it, and what their messages do |
| Ring.dfy, Playout.dfy, MediaClock.dfy, Writer.dfy, Wire.dfy, Interrupts.dfy, Supply.dfy | same names | internal/call/ring.go and the outbound writer of internal/call/call.go |
| Rtp.dfy, Sockets.dfy | Rtp, Sockets | internal/rtp/port.go |
| Call.dfy, Dialog.dfy, Ledger.dfy | Call, Dialog, Ledger | the rest of internal/call/call.go, internal/sip/server.go |

Check with `dafny verify dfyconfig.toml`.

## Conventions and idealisations

- Samples and bytes are ranges of `int`; 16- and 32-bit wrap-around of sequence numbers and
  timestamps is written out with `%`.
- Filter and interpolation arithmetic is over `real`. The resampler's fractional position is the exact
  rational `phase / toHz`; in float64 the accumulated ratio rounds, so for a ratio that is not a dyadic
  rational the proved chunk independence is that of the exact arithmetic.
- `sin`, `cos` and pi are parameters with the symmetries the taps rely on; the sum of the raw taps is
  required to be non-zero because the code divides by it.
- Time is an integer number of nanoseconds. Go's monotonic clock gives non-decreasing ticks.
- Where code and text disagree the model follows the code. The repository's README (line 93) says RTP
  timestamps advance by the payload bytes sent; the code always advances by `FrameBytes()`
  (`Rtp.TimestampFollowsPayload`, `Rtp.ShortFrameAdvancesWholeFrame`). The comment that a decoded byte
  re-encodes consistently by construction fails for exactly one byte (`Mulaw.EncodeDecode`). The comment
  that the media clock stays on real time however imprecise the timer is holds exactly when no
  tick comes more than five frames, counted on the clock of the first tick, after the one before it
  (`MediaClock.FollowsRealTime`), which gaps of at most five frames guarantee and larger gaps do not
  (`MediaClock.SmallGapsNeverReanchor`, `MediaClock.LargerGapCanReanchor`).

## Model

| member | source | states |
|---|---|---|
| Common.RunOutput | internal/audio/resample.go:11-16 | Any stage whose every call emits just what its specification gains produces, over any list of chunks (empty ones included), the specification of the whole stream. |
| Common.ChunkInvariance | internal/audio/transcoder_test.go:33-58 | Two chunkings of one stream give the same total output. |
| Mulaw.EncodeIsFirstNearest | internal/audio/mulaw.go:28-42 | The table entry is a code at minimal distance and the smallest such code. |
| Mulaw.EncodeDecode | internal/audio/mulaw.go:17-22 | Re-encoding a decoded code returns it if and only if the code is not 0xFF, which becomes 0x7F. |
| Mulaw.SilenceEncodesTo7F | internal/audio/mulaw.go:28-42 | Sample 0 encodes to 0x7F although 0xFF decodes to 0 as well. |
| Mulaw.MagnitudeRange | internal/audio/mulaw.go:50-53 | Decoded magnitudes lie in 0..32124, so the clip branch never fires. |
| Mulaw.DecodeInjective | internal/audio/mulaw.go:45-58 | Two codes decode alike if and only if they are equal or the two zeros 0x7F and 0xFF. |
| Mulaw.DecodeCorners | internal/audio/mulaw.go:45-58 | The table's corners are G.711's: 0x00 is -32124, 0x80 is 32124, 0x7F and 0xFF are 0, 0x7E and 0xFE are -8 and 8; the top bit flips the sign of every code. |
| Mulaw.SegmentSteps | internal/audio/mulaw.go:45-58 | From code to code the magnitude grows by 8 in the first of eight segments, twice as much in each next one, and by three quarters of the new step where a segment begins. |
| Mulaw.QuantiserError | internal/audio/mulaw.go:28-42 | Under any tie-break, 34 times the round-trip error is at most the magnitude plus 132, for every 16-bit sample. |
| Mulaw.QuantiserMonotone | internal/audio/mulaw.go:28-42 | Under any tie-break quantisation never reorders samples. |
| Mulaw.TableQuality | internal/audio/mulaw.go:65-68 | Error bound and monotonicity for the table actually built. |
| Mulaw.Tables.constructor | internal/audio/mulaw.go:24-43 | After initialisation both tables agree with the decode formula and the first-nearest encoder at every index. |
| Mulaw.Tables.Argmin | internal/audio/mulaw.go:29-40 | The inner scan returns the first nearest code. |
| Mulaw.Tables.DecodeMulaw | internal/audio/mulaw.go:71-76 | Appends the decoded sample of every byte, in order. |
| Mulaw.Tables.EncodeMulaw | internal/audio/mulaw.go:79-84 | Appends the nearest code of every sample, in order. |
| Pcm.SamplesOfBytes | internal/audio/pcm.go:5-12 | Decoding written bytes gives the samples back. |
| Pcm.BytesOfSamples | internal/audio/pcm.go:24-46 | Writing decoded samples gives back all bytes but a trailing odd one. |
| Pcm.SampleAt | internal/audio/pcm.go:28-46 | Sample i of a byte stream has byte 2i as its low and byte 2i+1 as its high half, and is negative exactly if that is 0x80 or more. |
| Pcm.BytesAt | internal/audio/pcm.go:7-12 | Byte 2i of what is written is the low half of sample i, byte 2i+1 its high half. |
| Pcm.SamplesToBytesLE | internal/audio/pcm.go:7-12 | Appends exactly two bytes per sample, low byte first. |
| Pcm.PCM16LEDecoder.Decode | internal/audio/pcm.go:28-46 | Emits exactly the samples the whole byte stream gains by this call, carrying an odd byte across calls. |
| Pcm.PCM16LEDecoder.Reset | internal/audio/pcm.go:49-51 | Back to the state of a new decoder. |
| Signal.ClampIsNearest | internal/audio/resample.go:137-146 | Rounding and clamping yields a nearest 16-bit sample, ties going away from zero. |
| Lagrange.LagrangeWeight | internal/audio/resample.go:126-135 | The product loop computes the basis polynomial for any order. |
| Lagrange.WeightsSumToOne | internal/audio/resample.go:124-135 | Over any run of integer nodes the weights sum to one at every t. |
| Lagrange.WeightAtZero | internal/audio/resample.go:124-135 | At t = 0 the weights pick node 0. |
| Lagrange.Exactness | internal/audio/resample.go:124-135 | Interpolating any polynomial of degree below the number of nodes returns the polynomial at every t. |
| Lagrange.BlendShift | internal/audio/resample.go:100-107 | Interpolation does not depend on where the nodes are numbered from. |
| Lowpass.FirPrefix | internal/audio/lowpass.go:17-20 | One output per input, and later input never changes earlier output. |
| Lowpass.FirIsSuperposition | internal/audio/lowpass.go:138-150 | Every output is the rounded, clamped sum over the samples of the stream of each sample times the tap at its age: the filter is the convolution, seen from the input. |
| Lowpass.ImpulseResponse | internal/audio/lowpass.go:138-150 | A single sample comes out as the taps times it, one a sample from where it stands, and as nothing before or after. |
| Lowpass.AlternatingFiltered | internal/audio/lowpass.go:8-15 | The highest frequency the input can carry comes out scaled by the alternating sum of the taps. |
| Lowpass.FoldStep | internal/audio/lowpass.go:138-147 | Each folded multiply adds the two direct taps it stands for. |
| Lowpass.FoldDone | internal/audio/lowpass.go:141-150 | Folded pairs plus the middle tap are the direct convolution, for symmetric odd-length taps. |
| Lowpass.UnityGain | internal/audio/lowpass.go:86-88 | Normalised taps return a constant stretch unchanged. |
| Lowpass.TapCountBounds | internal/audio/lowpass.go:63-77 | The tap count is odd, between 45 and 255, minimal for the transition width below the cap, and at the cap exactly when 44 fromHz > 253 toHz. |
| Lowpass.CutoffFrequency | internal/audio/lowpass.go:33-37 | The cutoff is 0.425 of the output rate, 3400 Hz for 8000 Hz, whatever the input rate. |
| Lowpass.HammingSincTaps | internal/audio/lowpass.go:89-112 | The coefficients are the windowed sinc scaled to sum one, symmetric and of odd length. |
| Lowpass.Trig.RawSymmetric | internal/audio/lowpass.go:93-107 | The windowed sinc is symmetric about its middle. |
| Lowpass.Trig.WindowShape | internal/audio/lowpass.go:93-105 | With cos 0 = 1 and cos pi = -1, the middle coefficient is twice the cutoff and the outer ones are 0.08 of the sinc there. |
| Lowpass.Trig.ZeroCrossing | internal/audio/lowpass.go:95-101 | The sinc is zero wherever the cutoff has gone through a whole number of half turns, if the sine is zero there. |
| Lowpass.Trig.QuarterTurn | internal/audio/lowpass.go:95-104 | With the sine 1 and the cosine 0 at a quarter turn, the sinc a quarter turn out is 2 / pi of its peak, and the window is 0.54 a quarter of the way through. |
| Lowpass.NewLowpass | internal/audio/lowpass.go:58-84 | A filter exists exactly for a downsample between positive rates; each of its taps is the windowed sinc at that cutoff over the sum of all, and its delay line is silent. |
| Lowpass.Lowpass.Process | internal/audio/lowpass.go:117-154 | Emits what direct convolution of the whole zero-prefixed stream gains; the delay line is again its last n-1 samples. |
| Lowpass.Lowpass.FoldedDot | internal/audio/lowpass.go:141-150 | The folded inner loop equals the direct dot product. |
| Lowpass.Lowpass.Reset | internal/audio/lowpass.go:157-164 | Equivalent to a new filter. |
| Resample.CountSpec | internal/audio/resample.go:93-94 | Output j is due exactly when the stream reaches four samples past its base. |
| Resample.ResampledPrefix | internal/audio/resample.go:11-16 | Outputs already due never change. |
| Resample.IdentityRate | internal/audio/resample.go:48-50 | Equal rates reproduce the input but for the last four samples. |
| Resample.PolynomialReproduced | internal/audio/resample.go:94-109 | Where the eight-sample window samples a polynomial of degree at most seven, the output is its rounded, clamped value at j fromHz / toHz. |
| Resample.ConstantReproduced | internal/audio/resample.go:94-109 | A constant window comes out as the constant. |
| Resample.InterpolantIsSpread | internal/audio/resample.go:99-107 | Interpolation is the sum over the samples of the stream of each sample times its weight in the eight-sample window, nothing standing before the start. |
| Resample.ConvertedCount | internal/audio/resample.go:93-116 | After N inputs exactly 0 (N at most 4) or ceil((N-4) toHz / fromHz) outputs exist, filter or not. |
| Resample.ConvertedPrefix | internal/audio/resample.go:11-16 | The filtered conversion only ever extends its output. |
| Resample.ConstantStream | internal/audio/resample.go:79-122 | A constant stream comes out constant from the first output whose window and filter taps lie inside it. |
| Resample.SilenceConverted | internal/audio/resample.go:79-122 | Silence stays silence, warm-up included. |
| Resample.FilterThenInterpolate | internal/audio/resample.go:79-110 | At any position, output j is the interpolation of the stream, or with a filter of the convolution of the stream, at j fromHz / toHz, both given sample by sample. |
| Resample.ImpulseInterpolated | internal/audio/resample.go:99-107 | Without a filter a single sample comes out as the interpolation weights around it. |
| Resample.OnSample | internal/audio/resample.go:79-110 | An output that falls on sample g is that sample without a filter, and with one the convolution there. |
| Resample.ImpulseConverted | internal/audio/resample.go:83-110 | With a filter, a single sample h at p makes the output that falls on sample g the clamped tap g - p times h, or 0 out of the taps' reach: no downsample goes unfiltered. |
| Resample.AlternatingConverted | internal/audio/lowpass.go:8-15 | What would fold back is held down before the rate changes: the highest input frequency comes out scaled by the alternating sum of the taps. |
| Streaming.GuardIsCount | internal/audio/resample.go:93-94 | The loop guard holds exactly while an output is due. |
| Streaming.PhaseAfterDiscard | internal/audio/resample.go:112-119 | After the loop the base is at least len(window)-4, so seven kept samples suffice. |
| Streaming.Resampler.constructor | internal/audio/resample.go:55-64 | A new resampler, filtered exactly for an anti-aliased downsample, by the designed taps: symmetric, of sum one, each the windowed sinc over the sum of all. |
| Streaming.Resampler.Process | internal/audio/resample.go:79-122 | Emits exactly what the conversion of the whole stream gains, the filter before the interpolation if there is one (what that conversion is: `Resample.FilterThenInterpolate`, `Resample.ImpulseConverted`); history is the last min(7, N) samples and offset plus phase is the next output position. |
| Streaming.Resampler.Interpolate | internal/audio/resample.go:87-121 | The interpolation loop and the rebasing of history and phase keep that relation for any filtered stream. |
| Streaming.Resampler.Weigh | internal/audio/resample.go:99-107 | The eight-node sum with zeros outside the window is the interpolant of the whole stream. |
| Streaming.Resampler.Reset | internal/audio/resample.go:68-72 | Equivalent to a new resampler. |
| Transcoder.EverySplitIsOneCall | internal/audio/transcoder.go:26-58 | For both pipelines, the pieces of every split of a byte stream concatenate to one call on the whole. |
| Transcoder.SpecsGrow | internal/audio/transcoder.go:26-58 | For both pipelines, later bytes never change what earlier ones became. |
| Transcoder.OutputCounts | internal/audio/transcoder.go:21-58 | Bytes out are an exact function of bytes in, in both directions. |
| Transcoder.SilenceOutput | internal/audio/transcoder.go:54-58 | Silent PCM becomes 0x7F bytes only, at any rate and from the first output on. |
| Transcoder.OutputOnSample | internal/audio/transcoder.go:54-58 | The byte that falls on PCM sample g is the code of that sample, or with a filter of the convolution of the PCM stream there. |
| Transcoder.ImpulseOutput | internal/audio/transcoder.go:54-58 | A click in wideband PCM reaches the caller as the code of one tap times the click, and as silence out of the taps' reach. |
| Transcoder.InputOnSample | internal/audio/transcoder.go:26-30 | The PCM sample that falls on mu-law byte g is that byte decoded, or with a filter the convolution of the decoded stream there. |
| Transcoder.SecondsOfAudio | internal/audio/transcoder.go:16-58 | s seconds of PCM at hz, more than four samples, become 8000 s - floor(32000 / hz) bytes, and s seconds of mu-law 2 (hz s - floor(4 hz / 8000)) bytes. |
| Transcoder.RoundTripAtTelephonyRate | internal/audio/transcoder.go:16-58 | At 8000 Hz both pipelines in a row return the mu-law stream, 0xFF folded to 0x7F, less eight samples. |
| Transcoder.InputTranscoder.Transcode | internal/audio/transcoder.go:26-30 | Emits exactly what the composed input specification gains (what that is: `Transcoder.InputOnSample`). |
| Transcoder.OutputTranscoder.Transcode | internal/audio/transcoder.go:54-58 | Emits exactly what the composed output specification gains, band-limited by the designed taps when the rate goes down (what that is: `Transcoder.OutputOnSample`, `Transcoder.ImpulseOutput`). |
| Relay.RecvLoop | internal/websocket/stream.go:242-283 | Over any messages and any refusals of events: which messages are read and what ends the loop; the events are those of the messages read; and unless an audio event was refused, their audio is the conversion of all audio read, or that audio itself without a transcoder. |
| Relay.HandleMessage | internal/websocket/stream.go:249-281 | One message, audio, text or unsupported, with or without a transcoder: the event handed on and whether the loop goes on. |
| Relay.EndingIsLast | internal/websocket/stream.go:264-281 | Over any messages and refusals: the loop ends on a transfer, end of session or go-away if and only if that is the last event handed on, no such event comes earlier, and a message that ends the loop in any other way (malformed, fatal, refused, unsupported, failed) hands nothing on. |
| Relay.SoundSoFar | internal/websocket/stream.go:250-262 | Up to any message, the audio handed on is the conversion of the audio read up to it, so a barge-in keeps its place in the audio. |
| Relay.SendLoop | internal/websocket/stream.go:212-240 | Over any payloads and write failures: one binary message for each payload that adds something, none empty, together the conversion of all payloads read, or the payloads themselves without a transcoder; the first failed write ends the loop. |
| Relay.WrittenIsConverted | internal/websocket/stream.go:221-229 | Whatever the payload sizes, the messages concatenate to the conversion of all payload bytes. |
| Relay.HandedIsEmitted | internal/call/call.go:412-463 | Whatever becomes of each event, the writer is handed, apart from its ticks, exactly the audio and barge-ins of the events the receive loop hands on, in order and no further than the loop reads. |
| Relay.MessageCutsNeverReachTheWire | internal/call/call.go:619-623 | Two runs of backend messages, refusals, signals and ticks that differ only in how accepted audio was cut into messages leave the writer with the same log: same frames, drops and buffer. |
| Backend.FirstOtherEnds | internal/websocket/stream.go:242-343 | With every event taken, the first message that is not audio, an unknown text, a transcript, a turn's end or a barge-in ends the receive loop and says how; with none the loop reads on. |
| Backend.RefusedEvents | internal/websocket/stream.go:260-281 | An event not taken: audio ends the loop without a word, a signal ends it with the context's error if the context is the reason, the backend's own endings end it cleanly otherwise, and everything else is as if taken. |
| Backend.EventAndEndAgree | internal/call/call.go:215-228 | Over any messages and refusals: whichever the call learns of first, the last event or the end of the stream, it is the same reason; without a transfer, end of session or go-away the end is untyped and no event stops the call. |
| Backend.LoggedEnding | internal/call/call.go:448-461 | A transfer is logged as TRANSFERRED, an end of session as AGENT_ENDED, a go-away as BACKEND_ERROR, and these alone stop the call. |
| Backend.SignalsAreHandedOn | internal/websocket/stream.go:304-330 | Every signal the backend sends is handed on once, in order. |
| Backend.InterruptingSignal | internal/call/call.go:436-456 | A barge-in or a transfer empties the writer's buffer on the spot, wherever it falls; the frames before it stand. |
| Backend.QuietSignal | internal/call/call.go:430-461 | Transcripts, the end of a turn, an end of session and a go-away leave the writer as it was. |
| Backend.AllAudioIsOffered | internal/call/call.go:421-429 | With every event taken, until the loop ends the writer is offered the conversion of all the backend's audio, in order, and no more. |
| Backend.AfterTheEnd | internal/websocket/stream.go:264-281 | Once the loop has ended nothing but the clock reaches the writer. |
| Backend.HeardAfterBargeIn | internal/call/call.go:436-442 | With every event taken, after a barge-in, wherever it falls among audio, signals and ticks: the frames that go out, followed by the buffer, are the conversion of exactly the audio received since, unless the buffer overflowed. |
| Backend.SameAudioSameFrames | internal/call/call.go:619-623 | The same audio in other messages, anywhere in a conversation, leaves every frame and the buffer as they were. |
| Backend.FirstFailureStops | internal/websocket/stream.go:221-237 | The send loop fails exactly if writing a payload that adds to the converted stream fails, and stops at the first. |
| Ring.ByteRing.constructor | internal/call/ring.go:22-27 | An empty buffer of the capacity asked for, at least one. |
| Ring.ByteRing.Write | internal/call/ring.go:40-50 | Appends the longest prefix that fits and evicts nothing. |
| Ring.ByteRing.Read | internal/call/ring.go:55-66 | Removes up to len(dst) oldest bytes in order into the front of dst and leaves the rest of dst alone. |
| Ring.ByteRing.Reset | internal/call/ring.go:70-73 | Discards everything. |
| Playout.StepKeepsInv | internal/call/call.go:624-676 | Every enqueue, barge-in and frame keeps conservation and order. |
| Playout.Conservation | internal/call/call.go:624-676 | Over every run, offered bytes are played, dropped on overflow, discarded by a barge-in or still buffered; since the last barge-in, played bytes followed by the buffer are the accepted bytes in order. |
| Playout.NothingSurvivesInterrupt | internal/call/call.go:650-657 | After a barge-in the state and all later frames depend on the later events alone. |
| Playout.PlayedAfterInterrupt | internal/call/call.go:650-657 | After a barge-in, real frame bytes followed by the buffer are the bytes accepted since, in order. |
| Playout.SplitEnqueue | internal/call/call.go:659-675 | Enqueueing a ++ b or a then b gives the same state and log, overflow included. |
| Playout.Balance | internal/call/call.go:624-647 | While frames are entirely real the buffer holds what came in less 160 bytes per frame. |
| Playout.RealIffSupplied | internal/call/call.go:624-647 | Once playing, every frame is entirely real audio if and only if supply covers it before it is due. |
| Playout.JitterTolerance | internal/call/call.go:473-484 | From the frame that clears buffering, 160 k - 320 accepted bytes before each later frame k suffice; the first three frames are always full. |
| Playout.EveryStartIsCushioned | internal/call/call.go:624-640 | Over every run: wherever audio starts or starts again after a frame of silence, that frame and the next two are full unless a barge-in comes between; and what the next frame carries follows from the frames sent and the depth of the buffer alone. |
| Playout.SilenceMeansDry | internal/call/call.go:635-639 | Over every run: between a frame with audio and a later one without, since the last barge-in, the buffer was empty at some frame. |
| Interrupts.BargeInClears | internal/call/call.go:650-657 | A barge-in among the run loop's inputs leaves an empty, buffering ring and every earlier frame as it was, and counts what it threw away. |
| Interrupts.AudioJoins | internal/call/call.go:659-675 | Audio joins the queue as far as 240000 bytes allow; the rest is counted as dropped and the overflow flag says whether there was any. |
| Interrupts.TickPlays | internal/call/call.go:591-647 | A tick moves bytes from the front of the queue into as many frames as the clock owes; no count and no flag but the cushion's changes. |
| Interrupts.OfferedIsSound | internal/call/call.go:649-676 | The bytes offered to the buffer are all audio bytes among the inputs, and nothing is discarded without a barge-in. |
| Interrupts.HeardAfterBargeIn | internal/call/call.go:650-657 | For any inputs before a barge-in and any after it without another: the frames after it followed by the queue are the later chunks, each as far as it fitted, and not a byte from before. |
| Interrupts.HeardFromStart | internal/call/call.go:649-676 | Without a barge-in the frames followed by the queue are all chunks, each as far as it fitted. |
| Interrupts.SilentAfterBargeIn | internal/call/call.go:650-657 | Until new audio comes every frame after a barge-in is 160 bytes of 0xFF. |
| Interrupts.NothingDropped | internal/call/call.go:659-675 | Unless the drop count rises, what was accepted is all the audio. |
| MediaClock.RunAnchored | internal/call/call.go:591-617 | After every tick the deadline lies in (now - 3F/4, now + F/4]. |
| MediaClock.Accounting | internal/call/call.go:599-613 | Frames times F plus forgiven time is the distance the deadline moved plus F; each re-anchor forgives at least 3F/4. |
| MediaClock.DueBound | internal/call/call.go:486-494 | No tick emits more than five frames; a tick re-anchors exactly when it is 115 ms or more behind. |
| MediaClock.NeverAhead | internal/call/call.go:583-590 | The stream is never more than 5 ms ahead of real time beyond its first frame. |
| MediaClock.ClosedFormHolds | internal/call/call.go:591-617 | Without a re-anchor the frame count is floor((now - t0 + 5F/4) / F). |
| MediaClock.ClosedFormFailsOnReanchor | internal/call/call.go:610-613 | At a re-anchoring tick the count is below the closed form. |
| MediaClock.ReanchorIsRestart | internal/call/call.go:610-613 | A re-anchoring tick is a new start: every later deadline and frame count is as if the clock had first ticked there. |
| MediaClock.ReanchorCondition | internal/call/call.go:599-613 | A run re-anchors at no tick if and only if, in the closed form of the tick times, no tick brings more than five new frames. |
| MediaClock.FollowsRealTime | internal/call/call.go:583-590 | The closed form holds after every tick of a run if and only if that condition on the tick times holds. |
| MediaClock.SmallGapsNeverReanchor | internal/call/call.go:486-494 | Ticks at most five frames apart never re-anchor. |
| MediaClock.LargerGapCanReanchor | internal/call/call.go:610-613 | A gap one nanosecond longer can re-anchor. |
| MediaClock.LateTicksDoNotMatter | internal/call/call.go:583-590 | Two tick sequences with such gaps and the same ends emit equally many frames. |
| Writer.OutboundWriter.constructor | internal/call/call.go:521-537 | Empty ring of 30 seconds, buffering, no deadline. |
| Writer.OutboundWriter.EmitFrame | internal/call/call.go:624-647 | One frame step of the playout machine, and one full padded packet to the port. |
| Writer.OutboundWriter.HandleCommand | internal/call/call.go:649-676 | One enqueue or barge-in step of the playout machine. |
| Writer.OutboundWriter.EmitDue | internal/call/call.go:591-617 | Exactly the frames the clock owes, the deadline advanced by the clock, packets in order. |
| Wire.FrameCountIsClock | internal/call/call.go:557-579 | How many frames go out is decided by the ticks alone. |
| Wire.TimestampsFollowWallClock | internal/call/call.go:581-590 | For tick times that meet that condition, packet k has sequence number seq0 + k mod 2^16, timestamp ts0 + 160 k mod 2^32 and 160 bytes, and at 125 microseconds a sample the last timestamp is less than 15 ms behind the elapsed time and at most 5 ms ahead of it. |
| Wire.RunLoop | internal/call/call.go:565-579 | The run loop of a fresh writer produces exactly the log, deadline and packets of the machine, each input an enqueue, a barge-in or the frames of a tick (what each does to the log: `Interrupts.AudioJoins`, `Interrupts.BargeInClears`, `Interrupts.TickPlays`). |
| Wire.MergedRun | internal/call/ring.go:8-14 | Joining adjacent audio chunks changes neither ticks nor the resulting log. |
| Wire.ChunkingNeverReachesTheWire | internal/call/ring.go:8-14 | Inputs that differ only in chunking put the same packets on the wire. |
| Wire.SameSoundSameRun | internal/call/ring.go:8-14 | Anywhere in a run, the same audio cut into other chunks gives the same log. |
| Wire.PaddingIsSilence | internal/rtp/port.go:28-29 | A frame is 160 bytes, its real bytes in front, and every byte behind them decodes to a zero sample. |
| Supply.GaplessIffSupplied | internal/call/call.go:557-647 | Once playing, until the next barge-in and for tick times that meet that condition: every frame sent is 160 bytes of real audio if and only if, before every tick, the bytes in hand at the start and those accepted since cover the frames real time has called for since. |
| Supply.OneFrameLateIsGapless | internal/call/call.go:473-484 | With 320 bytes in hand, audio accepted at 8000 bytes a second and never more than 20 ms late plays without a gap. |
| Rtp.WireNumbering | internal/rtp/port.go:186-235 | With a remote, packet k has consecutive number and timestamp modulo their widths, fixed SSRC and type, no marker, payload k, and goes to that remote. |
| Rtp.NoRemoteNoPackets | internal/rtp/port.go:213-216 | Without a remote frames are consumed and nothing advances. |
| Rtp.RemoteChangesKeepNumbering | internal/rtp/port.go:263-265 | Once a remote is known, replacing it between frames leaves numbering and payloads untouched, and every packet goes to the remote known when it was written. |
| Rtp.AfterLearning | internal/rtp/port.go:126-131 | Whatever was known before, the packets after a remote is learned are numbered on from where the stream stood and all go to it. |
| Rtp.EmptyFrameSkipped | internal/rtp/port.go:206-208 | An empty frame, anywhere among others, is not sent and spends no number. |
| Rtp.SequenceRepeats | internal/rtp/port.go:221-226 | Two packets have the same sequence number exactly if they are a multiple of 65536 apart. |
| Rtp.TimestampFollowsPayload | internal/rtp/port.go:178-198 | The timestamp advances by the payload length if and only if the payload is a full frame: as many bytes as configured, or 160. |
| Rtp.ShortFrameAdvancesWholeFrame | internal/rtp/port.go:226-227 | An 80-byte payload advances the timestamp by 160. |
| Rtp.Port.SetRemote | internal/rtp/port.go:126-131 | A nil address is ignored, so a remote is never unset. |
| Rtp.Port.WriteFrame | internal/rtp/port.go:205-235 | One step of the packet machine, destination included; an error exactly if the socket fails on a packet, whose numbers are spent all the same. |
| Sockets.RunLoop | internal/rtp/port.go:141-176 | The first wake-up that is not a quiet check ends the loop, as cancellation, as the reader's end or as a timeout; the port is closed unless the reader ended by itself, and the reader's end has been seen unless the loop timed out. |
| Sockets.ExitNamesItsCause | internal/rtp/port.go:153-176 | The exit names its wake-up: cancellation, the reader's end with its own result, a timer, or none; and the first cancellation or end of the reader that finds only quiet checks before it is the exit. |
| Sockets.TimeoutOnlyAfterSilence | internal/rtp/port.go:161-173 | A timeout means no packet was accepted for at least mediaTO, and if none ever was, that initialTO has passed. |
| Sockets.TimeoutBySecondCheck | internal/rtp/port.go:161-173 | After the last packet the second check reports the timeout at the latest. |
| Sockets.InitialTimeout | internal/rtp/port.go:168-171 | Without any packet a check reports exactly from initialTO on. |
| Sockets.TimeoutWithin | internal/rtp/port.go:148-175 | With a timer late by at most slack, silence is reported within 2 (mediaTO + slack). |
| Sockets.LoopTimesOutOnSilence | internal/rtp/port.go:153-175 | Whatever else may wake the loop, a timeout it reports means no packet was accepted for mediaTO, and if none ever was, that initialTO has passed. |
| Sockets.LoopTimesOutInTime | internal/rtp/port.go:153-175 | If two checks follow the last packet, the loop has reported the timeout by the second. |
| Sockets.LoopTimesOutInitially | internal/rtp/port.go:153-175 | Without any packet the loop reports the timeout at the first check from initialTO on. |
| Sockets.FullRotation | internal/rtp/port.go:296-310 | From any start one pass tries every even port of the range exactly once, upwards and from the bottom again after the top. |
| Sockets.EvenLimits | internal/rtp/port.go:284-291 | The rounded limits enclose exactly the even ports from 2 to 65534 that the caller's limits admit, a limit that is no port number admitting all. |
| Sockets.EmptyRange | internal/rtp/port.go:292-294 | The probe gives up at once exactly if the range holds no even port. |
| Sockets.ListenRange | internal/rtp/port.go:279-312 | The first candidate not in use decides; exhaustion is reported only if every try was in use. |
| Sockets.BoundPortInRange | internal/rtp/port.go:284-302 | A port handed out is an even port of the range asked for. |
| Sockets.ExhaustedMeansAllTaken | internal/rtp/port.go:311-311 | With stable occupancy, exhaustion means every even port of the range asked for is taken. |
| Sockets.FoundIffFree | internal/rtp/port.go:284-312 | With stable occupancy and no other socket error, a port is found if and only if the range asked for has a free one. |
| Call.StepKeepsInv | internal/call/call.go:72-240 | The lifecycle invariant is kept by every step of every thread; it includes that run waits for the media goroutines only after cancelling their context. |
| Call.ReasonWriteOnce | internal/call/call.go:678-684 | A reason once set, or once Done is closed, never changes; Done is not closed again; a close before start is final. |
| Call.ReasonAgreement | internal/call/call.go:132-240 | Over every interleaving: run is spawned at most once and never after an earlier close, Done closes at most once, the logged reason is the one read after Done, there is none exactly if no step gave one, and otherwise it is one that was given. |
| Call.ReasonHasCause | internal/call/call.go:100-240 | Once Done is closed the call has no reason if and only if none was given, and otherwise one of those given; and the reasons given are those told by the kinds of steps alone (`Call.CausesAreReasons`). |
| Call.CausesAreReasons | internal/call/call.go:132-240 | What gives a reason is a first close with one, a failed dial, a typed end of the stream, a reason told by receiveBackend, and an untyped stream end or media error if, when run goes on, the context is alive and no reason is known; nothing else does. |
| Call.QuietEnding | internal/call/call.go:206-214 | A call that nobody closes with a reason, whose dial succeeds, and whose relay is left on a cancelled context, an RTP end or a quiet media end has no reason, ever, and is logged as USER_ENDED. |
| Call.ErrorEndIsGiven | internal/call/call.go:223-236 | An untyped stream end or a media error after which the context is alive when run goes on leaves the call with a reason. |
| Call.EveryEndingHappens | internal/call/call.go:206-240 | For every way to leave the relay an interleaving takes it and publishes the reason for it: the typed one, BackendError for an untyped stream end or media error, and none otherwise. |
| Call.EveryCauseHappens | internal/call/call.go:100-144 | So do, with their reasons, a hangup by the user, a dial that fails and a reason told by receiveBackend. |
| Call.NothingComesEarly | internal/call/call.go:206-240 | In every interleaving: a cancel comes only after a close, the relay is left on a cancelled context only after a cancel, on a media error or a quiet media end only after a media goroutine has stopped, and the join passes only after the media context is cancelled and both have stopped. |
| Call.StepsRunOut | internal/call/call.go:125-240 | Every effective step decreases a rank, so a call takes finitely many. |
| Call.BoundedLife | internal/call/call.go:72-240 | No interleaving of any length, with any number of callers, holds more than 25 lifecycle transitions; what the two media loops do between starting and returning counts as none. |
| Call.TeardownCompletes | internal/call/call.go:161-177 | A call that is closed, has a media goroutine that is returning, or whose run has left the relay for any reason, cannot get stuck: until Done is closed exactly once and its reason published, some thread can step with no help from outside, a media goroutine returning only because its context is cancelled. |
| Call.TeardownEnds | internal/call/call.go:132-177 | From there any run of steps taken without help from outside has at most as many steps as the rank, and one that cannot go on has closed Done once and published the reason. |
| Call.TeardownRuns | internal/call/call.go:132-177 | And such a run to completion exists. |
| Call.WaitNeedsCancel | internal/call/call.go:161-167 | In the other order it could: with run waiting, both media goroutines at work, neither context cancelled and no close in progress, no thread can step without help from outside. |
| Call.ByeMatchesLog | internal/call/call.go:764-775 | The relay hangs up exactly on reasons logged as other than USER_ENDED. |
| Call.Call.Start | internal/call/call.go:72-84 | Spawns run exactly when neither closed nor started. |
| Call.Call.CloseWithReason | internal/call/call.go:100-123 | First close wins: writes the reason once, cancels and closes RTP, and closes Done itself exactly if never started. |
| Call.Call.SetEndReason | internal/call/call.go:678-684 | Sets the reason only if none is set. |
| Dialog.RemoveSparesOthers | internal/sip/server.go:388-397 | Removing an entry keeps every key of every other entry, also on a reused tag or Call-ID. |
| Dialog.RemovedIsAbsent | internal/sip/server.go:388-397 | A removed entry is in neither map. |
| Dialog.ReusedCallID | internal/sip/server.go:381-413 | With a reused Call-ID the tag still finds the older entry, an unknown or empty tag the newer, and removing either keeps the other reachable by tag. |
| Dialog.ActKeepsInv | internal/sip/server.go:300-379 | Every handler, awaiter and watcher step keeps the dialog invariant. |
| Dialog.NextKeepsInv | internal/sip/server.go:159-193 | So do new INVITEs, lookups and shutdown. |
| Dialog.History | internal/sip/server.go:300-397 | Between any two states of a run, finished stays finished, a refused INVITE stays refused, reasons after Done stay, entries are never lost. |
| Dialog.FinishedNeverReturns | internal/sip/server.go:301-311 | Once its watcher or a close body has finished, or its INVITE could not be answered, an entry is in neither map, then and for ever. |
| Dialog.RunsOneCall | internal/sip/server.go:276-282 | What an interleaving does to the call of an entry is an interleaving of that call, so everything proved of calls holds in every dialog. |
| Dialog.ByeDiscipline | internal/sip/server.go:301-339 | At most one BYE, only after Done, only for agent, transfer or backend endings, never if an incoming BYE's close body ran; the relay's close body ran exactly in the remaining cases and then one BYE was sent unless the send failed; and the ending it went by is one that a step of the call gave, or none if none was given. |
| Dialog.ByesAreSends | internal/sip/server.go:303-306 | Over every interleaving the BYEs sent are the sends that went through, and there was exactly one send, whether or not it went through, if the relay's close body has got past it, and none otherwise. |
| Dialog.UserEndedIsHangup | internal/sip/server.go:327-339 | The user's hangup is among the reasons a call was given if and only if a BYE or the cancel of the INVITE transaction closed it. |
| Dialog.NoByeToUser | internal/sip/server.go:301-311 | As long as a call was given no reason but the user's, the relay sends no BYE. |
| Dialog.RelayHangsUp | internal/sip/server.go:301-311 | A call given a reason to end, on which the user did not hang up, is ended by the relay: at rest it is complete, its entry is in neither map, and unless the close body of an incoming BYE ran the relay's has, and one BYE was sent unless the send failed. |
| Dialog.BackendEndsDialog | README.md:92 | A transfer, end of session or go-away told by the backend, as an event or as the end of its stream, ends the dialog in that way, BYE included; if nothing else was given, it is logged as TRANSFERRED, AGENT_ENDED or BACKEND_ERROR. |
| Dialog.LiveIsFound | internal/sip/server.go:399-413 | With distinct tags, a call that is up and not about to be shut down is found by its tag. |
| Dialog.HangupEndsDialog | internal/sip/server.go:159-379 | A BYE or CANCEL that finds the entry, a shutdown while it is filed, a failed answer, a missing ACK and a cancelled INVITE each end the dialog: in every later state at rest the call is complete and the entry in neither map. |
| Dialog.AckIsHeard | internal/sip/server.go:314-369 | An ACK that finds the entry is not lost: while the awaiter waits it can take it, and that starts the call unless a close came first. |
| Dialog.EntrySettles | internal/sip/server.go:300-379 | An entry for which no thread can go on without a new message has a call that is up, or is finished with its call complete. |
| Dialog.NoLeaks | internal/sip/server.go:300-397 | Nothing leaks: over every interleaving with distinct tags, an entry for which no thread can go on without a new message is filed under its tag if and only if its call is up; otherwise the call is complete and no map holds the entry. |
| Dialog.ActsRunOut | internal/sip/server.go:300-379 | Every action of a handler, the awaiter, the watcher or the call lowers the entry's rank. |
| Dialog.BoundedDialog | internal/sip/server.go:300-379 | In every interleaving a dialog takes at most 34 actions and two more for each message or shutdown that arrives. |
| Dialog.WatcherAndLogAgree | internal/sip/server.go:303-308 | The watcher's choice and the hangup reason logged later come from the same value. |
| Ledger.EveryMessageCounted | internal/sip/server.go:283-379 | Over every interleaving the state of an entry is accounted for by what reached it and what was done about it: the INVITE answered or refused once, its awaiter ended once, every BYE entered or skipped, every CANCEL closing and then removing, the watcher waking once and ending in one of three ways. |
| Ledger.MessagesHandledOnce | internal/sip/server.go:327-379 | Once an entry is at rest every BYE and CANCEL that found it was handled exactly once, at most one BYE ran the close body, and each close by a handler, the awaiter or a refused answer was followed by its removal. |
| Ledger.NoMediaWithoutAck | internal/sip/server.go:314-369 | A call that was ever started was acknowledged, by its transaction or by an ACK that found it. |
| Ledger.TakenOutForGood | internal/sip/server.go:293-378 | Over every interleaving: once a failed answer, a handler, the awaiter or the watcher has taken an entry out, it is in neither map, then and for ever. |
| Ledger.SecondShutdown | internal/sip/server.go:159-164 | After one shutdown another changes nothing at all. |
| Ledger.ComesToRest | internal/sip/server.go:300-379 | Every interleaving can be continued, without any message, by actions of one entry alone, until that entry is at rest. |
| Ledger.EveryCallRuns | internal/sip/server.go:276-298 | The converse of `Dialog.RunsOneCall`: every interleaving of a call that begins with its start and has no close from outside is what some dialog does to its call. |
| Ledger.EveryAnswerHappens | internal/sip/server.go:293-379 | The answer can fail, and an answered INVITE can be cancelled, time out, or be acknowledged on either path. |
| Ledger.SendMayFail | internal/sip/server.go:303-306 | Wherever the relay's BYE can be sent its send can fail, and the other way round. |
| Dialog.ServerObject.Store | internal/sip/server.go:381-386 | Files an entry under its tag and Call-ID. |
| Dialog.ServerObject.Remove | internal/sip/server.go:388-397 | Unfiles an entry where it is the one filed. |
| Dialog.ServerObject.Lookup | internal/sip/server.go:399-413 | Finds by To tag first, then by Call-ID. |
| Dialog.ServerObject.Close | internal/sip/server.go:159-176 | Empties the maps once and closes the call of every entry filed by tag. |

## Left out

- Float64 rounding, and the numeric values and dB claims of the taps: arithmetic is exact (see above).
- Sockets, SIP, SDP, gRPC, WebSocket and HTTP libraries, logging, recording and publishing: their results are parameters (probe outcomes, dial success, packet arrivals) or dropped. `internal/ces`, `internal/sdp`, `internal/config` and `internal/calllog` would only add members with one branch.
- Slice reuse and capacity (`ext`, `scratch`, make sizes), nil receivers of `Port`, and a writer without stats.
- The overflow warning is not modelled, only `overCap` and the dropped-byte count: how often it is logged does depend on chunking.
- Liveness of Go's `select` and fairness of the scheduler: `Call.TeardownCompletes` and `Dialog.NoLeaks` say a step is always possible, not that it is taken.
- Whether `received` is sent on after close, whether the RTP port is closed before Done, and whether the maps stay empty after `Server.Close`: the code does not promise these.
- Conversation history, the silence padding sent to the backend, decoding of the JSON texts, and BYE header construction.
- Ledger.EveryCallRuns: interleavings with a close from outside are not built, only those that begin with the start.
- The command channel between `Enqueue`/`Interrupt` and the run loop: commands are taken as the ordered list the loop handles.
- Dialog.NoLeaks: that the tags drawn for dialogs differ is assumed where filing is concerned, not derived from how they are drawn.
- Dialog.ActKeepsInv: a handler need not wait for the cancel and RTP close of the call it closed before it removes the entry, so the model has more interleavings than the code.
- Sockets.RunLoop: the clock reading that arms the next timer and the one compared with `initialTO` are the same instant as the check.
- Lowpass.NewLowpass: requires a non-zero coefficient sum, which the code's formula has but is not derived here.
- Dialog.ServerObject.Close: closing listeners, client and user agent after the calls is not modelled.
