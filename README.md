# Sound and music portfolio: a verified model of its self-contained core

This project models, in Dafny, the parts of the sound-and-music portfolio that
compute something on their own rather than calling into an audio library:

- **The spectrogram codec of `code/fft/fft.py`.** It covers:
  - the recursive radix-2 decimation-in-time FFT `ditfft2`, which addresses its input by size and stride;
  - the inverse `inverse_ditfft2`, built from the forward transform by conjugation, with the proof that it undoes the forward transform;
  - the short-time Fourier transform `audio_to_spectrogram`;
  - the 8-bit quantisation arithmetic of `save_spectrogram` and the dequantisation of `load_spectrogram`;
  - the zero-phase, Hermitian-mirrored, Hann-windowed overlap-add reconstruction `spectrogram_to_audio`.
- **The argument parsers and melody arithmetic of the pop generator** (`code/popgen/parsing.py`, `code/popgen/popgen.py`). These are:
  - the note-name grammar and its key numbering, the knob and decibel parsers, and the chord-loop list;
  - the scale and chord offsets, and `pick_notes`, which walks a global chord position up and down.
- **Adaptive tone control** (`code/adaptive-tone-control`). It covers:
  - band energies from a spectrum, and the band-pass filter bank with its range check;
  - exponential gain smoothing;
  - the frame loop of `dynamic_tone_control`, which overlap-adds equalised frames;
  - the `--bands` argument parser of the basic program.
- **The interpolator** (`code/interpolator`): the validation of a JSON instruction list and the linear blend of two pitch contours.
- **The clipped sine generator** (`code/clipped/clipped.py`): its sample count, the in-place clipping with an int16 level, and the file-type guard of `save_to_wav`.

Each module follows one part of the program:

- `ComplexArith`: complex numbers as pairs of reals.
- `FftEngine`, `Framing`, `SpectrogramAnalysis`, `SpectrogramCodec`, `OverlapAddition` and `AudioReconstruction`: the spectrogram codec.
- `NoteGrammar`, `PopgenArgs` and `Popgen`: the pop generator.
- `BandTable`, `ToneControl` and `BandsArgument`: adaptive tone control.
- `InstructionFile` and `PitchInterpolation`: the interpolator.
- `ClippedSine`: the clipped sine generator.
- `PyText`: the pieces of Python's string handling the parsers rely on.

Code that updates state step by step is modelled imperatively:

- the combining loop of the FFT fills a fresh sequence;
- the STFT appends columns;
- the overlap-add loops add into `array<real>` buffers, and the weight division updates the buffer in place;
- `apply_gain` accumulates into an array;
- `dynamic_tone_control` carries its smoothed gains and output array through a loop;
- `pick_notes` is a method of a class holding the global position;
- `parse_bands` and `parse_instruction_file` are loops;
- the clip masks update an array in place.

Each of these methods is proved equal to a specification function, and the properties are proved about those functions.

Whatever is not computable in Dafny's reals, or is not part of the program, is given as a parameter:

- **The FFT twiddle factor** `exp(-2πi/N)` is the parameter `root`. The proofs assume only that its `N/2`-th power is `-1`.
- **Library calls:** `np.abs`, `log10`, `10**x`, `np.hanning`, numpy's `compute_fft` and the scipy Butterworth filter.
- **Python's `float()`/`int()`**, which appear as `string -> Option<…>`.
- **`random.random()`**, a sequence of draws.
- **The file system and `json.load`**, given as the inputs `isFile` and `decoded`.

A gain of the form `10 ** e` is returned as its exponent (`PowerOfTen(e)`).

## Model

| member | source | states |
|---|---|---|
| FftEngine.Gather | code/fft/fft.py:30-37 | the elements the transform addresses at size n and stride s, exactly n of them |
| FftEngine.GatherElement | code/fft/fft.py:30-37 | element j of the addressed stride is x[j*s] and lies inside x: the recursion reads x[j*s] for j < N and nothing else |
| FftEngine.GatherPrefix | code/fft/fft.py:102 | with stride 1 the transform reads the first n samples, in order |
| FftEngine.GatherHalves | code/fft/fft.py:34-37 | the even half keeps its origin with stride 2s; the odd half starts at x[s:] with stride 2s; both are addressable |
| FftEngine.EvenOddSplit | code/fft/fft.py:33-44 | the DFT sum splits into the even terms at w*w plus w times the odd terms at w*w |
| FftEngine.Butterfly | code/fft/fft.py:41-44 | E[k] + w^k*O[k] is DFT bin k and E[k] - w^k*O[k] is bin k + N/2, for k < N/2 |
| FftEngine.SingleDft | code/fft/fft.py:30-31 | the transform of one element is that element, for either root |
| FftEngine.SquaredRoot | code/fft/fft.py:34-37 | the half-size calls get a power-of-two size and a root whose half-turn power is -1 |
| FftEngine.DitFft2 | code/fft/fft.py:17-46 | ditfft2 returns N values; value k is the DFT sum of x[j*s]*w^(jk) over j < N |
| FftEngine.Combine | code/fft/fft.py:40-44 | the combining loop fills 2*(N/2) values: even[k] + t_k*odd[k] at k, even[k] - t_k*odd[k] at k + N/2 |
| FftEngine.ConjPoly | code/fft/fft.py:65-71 | conjugating coefficients and value of the DFT sum conjugates its argument |
| FftEngine.GatherConj | code/fft/fft.py:65-68 | conjugating the input commutes with addressing it by stride |
| FftEngine.InverseDitFft2 | code/fft/fft.py:49-73 | the result is the inverse DFT: the DFT with the conjugate root, divided by N exactly once; N = 1 returns [X[0]] |
| FftEngine.Orthogonality | code/fft/fft.py:40-44 | for a half-turn root of a power-of-two N and 0 <= d < 2N, the sum of root^(dk) over k < N is N when d is 0 or N and 0 otherwise |
| FftEngine.UnitModulus | code/fft/fft.py:42 | a root whose N/2-th power is -1 has modulus 1: conj(root) * root == 1 |
| FftEngine.ConjRootPower | code/fft/fft.py:65-71 | conjugating the twiddle root inverts it: with root^(N/2) == -1, conj(root)^m == root^(N-m) for m <= N |
| FftEngine.InverseAfterForward | code/fft/fft.py:49-73 | the inverse DFT of the DFT of any power-of-two-length signal is that signal: the inverse yields the time-domain signal |
| FftEngine.InverseUndoesForward | code/fft/fft.py:17-73 | whatever ditfft2 returns for the first N samples at stride 1, inverse_ditfft2 of it returns exactly those samples |
| Framing.FrameSchedule | code/fft/fft.py:91-95 | every scheduled frame lies inside the signal, one more would not, and a signal shorter than a window has no frames |
| Framing.FrameInside | code/fft/fft.py:97-99 | frame i, from i*step to i*step + window, lies inside the signal |
| Framing.Slice | code/fft/fft.py:99 | a Python slice is clamped to the sequence and is the exact slice when in range |
| SpectrogramAnalysis.MagnitudeColumn | code/fft/fft.py:105 | a column holds window//2 + 1 magnitudes |
| SpectrogramAnalysis.Transpose | code/fft/fft.py:108 | rows become columns entry by entry; no columns give an empty result |
| SpectrogramAnalysis.Columns | code/fft/fft.py:91-106 | one column per scheduled frame, each of window//2 + 1 values |
| SpectrogramAnalysis.AudioToSpectrogram | code/fft/fft.py:76-108 | an overlap equal to the window is a ZeroDivisionError, and only it; otherwise the loop's transposed column list equals the specification Spectrogram |
| SpectrogramAnalysis.SpectrogramEntries | code/fft/fft.py:91-108 | row b, column i is the modulus of DFT bin b of frame i, which lies inside the signal; it is non-negative for a modulus |
| SpectrogramAnalysis.ShortAudioGivesEmptySpectrogram | code/fft/fft.py:92-95 | a signal shorter than one window gives an empty spectrogram, and only such a signal does |
| SpectrogramCodec.LogScale | code/fft/fft.py:123 | the log spectrogram has the input's shape, each entry 10*log10(v + 1e-6) |
| SpectrogramCodec.Flatten | code/fft/fft.py:124-125 | every entry of the matrix, and nothing else, is among the flattened values |
| SpectrogramCodec.Minimum | code/fft/fft.py:124 | min() is an entry and no entry is smaller |
| SpectrogramCodec.Maximum | code/fft/fft.py:125 | max() is an entry and no entry is larger |
| SpectrogramCodec.Dequantise | code/fft/fft.py:158-165 | the loaded spectrogram has the image's shape |
| SpectrogramCodec.DequantiseError | code/fft/fft.py:123-165 | loading what was saved gives the original's shape; each entry is 10**(x/10) - 1e-6 of its pixel's log level x, which is at most the original log value and less than (hi - lo)/255 below it |
| SpectrogramCodec.NormaliseRange | code/fft/fft.py:127-129 | (v - lo)/(hi - lo)*255 lies in [0, 255] on [lo, hi]; lo maps to 0 and hi to 255 |
| SpectrogramCodec.LevelInvertsNormalise | code/fft/fft.py:158-162 | before truncation, q/255*(hi - lo) + lo undoes the normalisation exactly |
| SpectrogramCodec.TruncationError | code/fft/fft.py:132 | after uint8 truncation the recovered log level is at most the original and less than (hi - lo)/255 below it |
| SpectrogramCodec.RestoreInvertsLogScale | code/fft/fft.py:165 | without truncation, 10**(level/10) - 1e-6 recovers the linear value whenever 10**x undoes log10 |
| SpectrogramCodec.QuantiseSpec | code/fft/fft.py:123-132 | empty input is an error and a constant one divides 0 by 0; otherwise the image has the input's shape, stores min and max, and every pixel is the truncated normalised level in [0, 255] |
| OverlapAddition.Starts | code/fft/fft.py:210 | one start per frame |
| OverlapAddition.Sums | code/fft/fft.py:212 | the overlap sums cover the whole buffer |
| OverlapAddition.Placed | code/fft/fft.py:212 | slice addition keeps the buffer's length |
| OverlapAddition.PlacedExtends | code/fft/fft.py:212 | adding frame i at its start to the sums of frames 0..i-1 gives the sums of frames 0..i |
| OverlapAddition.AddFrame | code/fft/fft.py:212 | buffer[start:start+len(frame)] += frame updates the array as Placed says |
| OverlapAddition.ExtendSums | code/adaptive-tone-control/src/energy_analysis.py:151 | a buffer holding the sums of frames before i holds the sums up to i after one slice addition; the same step serves the two slice additions of code/fft/fft.py:212-213 |
| OverlapAddition.OverlapSumOutside | code/adaptive-tone-control/src/energy_analysis.py:151 | a sample no frame covers sums to 0, in the tone-control output and in the buffers of code/fft/fft.py:212-213 alike |
| AudioReconstruction.ReversedInterior | code/fft/fft.py:203 | p[-2:0:-1] has |p| - 2 elements, element j being p[|p|-2-j] |
| AudioReconstruction.Mirror | code/fft/fft.py:201-203 | the mirrored spectrum of B bins has 2B - 2 values |
| AudioReconstruction.Column | code/fft/fft.py:197 | spectrogram[:, i] has one value per row |
| AudioReconstruction.FrameSignal | code/fft/fft.py:204-207 | the windowed time signal has window samples |
| AudioReconstruction.Windowed | code/fft/fft.py:207 | the Hann product keeps the window's length |
| AudioReconstruction.FrameSignals | code/fft/fft.py:195-207 | one windowed signal per frame |
| AudioReconstruction.Repeat | code/fft/fft.py:213 | every frame adds the same Hann window to the weights |
| AudioReconstruction.Divided | code/fft/fft.py:215-216 | the division keeps the buffer's length |
| AudioReconstruction.OverlapAdd | code/fft/fft.py:212-216 | the normalised overlap-add has the requested length |
| AudioReconstruction.Reconstructed | code/fft/fft.py:186-188 | the reconstruction has frames*step + overlap samples |
| AudioReconstruction.FrameFitsBuffer | code/fft/fft.py:188-212 | frame i always fits in the buffer, and the last frame ends exactly at its end |
| AudioReconstruction.BufferLength | code/fft/fft.py:188 | the buffer length is never negative |
| AudioReconstruction.MirrorSymmetry | code/fft/fft.py:203 | the mirrored spectrum starts with the column and is Hermitian: full[n-k] == conj(full[k]) for 1 <= k <= B-2 |
| AudioReconstruction.WindowedFrame | code/fft/fft.py:197-207 | mirror, inverse transform with stride 1, real part and Hann window give FrameSignal |
| AudioReconstruction.AccumulateFrames | code/fft/fft.py:189-213 | two fresh buffers of frames*step + overlap samples end up holding the overlap sums of the signals and of the weights |
| AudioReconstruction.AddFrameAt | code/fft/fft.py:210-213 | one pass adds frame i to the signal buffer and the Hann window to the weight buffer |
| AudioReconstruction.DivideByWeight | code/fft/fft.py:215-216 | samples whose weight exceeds 1e-6 are divided by it in place; the others are unchanged |
| AudioReconstruction.OverlapAddFrames | code/fft/fft.py:186-218 | the buffers after the loop and the division equal Reconstructed |
| AudioReconstruction.SpectrogramToAudio | code/fft/fft.py:170-218 | an index error exactly when frames exist and the mirror is shorter than the window; with no frames, overlap zeros; otherwise Reconstructed, including an overlap equal to the window, where every frame is added at 0 |
| AudioReconstruction.ConsistentFramesSum | code/fft/fft.py:212-213 | frames contributing c times their weights sum to c times the weight sum |
| AudioReconstruction.StretchContributions | code/fft/fft.py:207-213 | a Hann-weighted stretch of g contributes g[t] times its weight at t |
| AudioReconstruction.NormalisationRecovers | code/fft/fft.py:215-216 | dividing c*w by w > 1e-6 gives c |
| AudioReconstruction.ProportionalFramesRecover | code/fft/fft.py:212-216 | proportional frames are recovered as c where the weight sum exceeds 1e-6 |
| AudioReconstruction.RecoveredAt | code/fft/fft.py:212-216 | a frame sum equal to c times a weight sum above 1e-6 normalises to c |
| AudioReconstruction.OverlapAddRecovers | code/fft/fft.py:207-216 | overlap-add of Hann-weighted stretches of g gives back g wherever the weight sum exceeds 1e-6 |
| NoteGrammar.MatchNote | code/popgen/parsing.py:8 | a match yields only captures the pattern can produce |
| NoteGrammar.MatchIsRendering | code/popgen/parsing.py:102 | fullmatch: a matched string is exactly the rendering of its capture |
| NoteGrammar.RenderingMatches | code/popgen/parsing.py:8 | every capture the pattern allows is matched back from its rendering |
| NoteGrammar.NoteIndexMatchesNames | code/popgen/parsing.py:10-11 | the name table finds exactly the twelve names, each at its list position |
| NoteGrammar.ParseNoteOutcomes | code/popgen/parsing.py:102-110 | a non-matching string is a ValueError, "Cb"/"Fb" a KeyError, otherwise index + 12*octave (octave 4 by default), in 0..107 |
| NoteGrammar.NoteStringRoundTrip | code/popgen/popgen.py:36-41 | every key 0..107 written as name[octave] parses back to itself |
| NoteGrammar.DefaultOctave | code/popgen/parsing.py:107-109 | a bare name is the same key as the name with [4] |
| PopgenArgs.LogKnobCurve | code/popgen/parsing.py:131 | between 0.1 and 9.9 the gain is 10**(db_at_zero*(10-v)/200), within [0, 1] and increasing in the setting |
| PopgenArgs.KnobErrors | code/popgen/parsing.py:120-126 | both knob parsers reject exactly unreadable values and values outside [0, 10] |
| PopgenArgs.LogKnobAboveUnity | code/popgen/parsing.py:129-130 | 9.95 is accepted and gives 10.0, outside the promised [0, 1] |
| PopgenArgs.ParseLinearKnob | code/popgen/parsing.py:143-145 | an accepted setting gives a gain in [0, 1] that is a tenth of it |
| PopgenArgs.LinearKnobOnto | code/popgen/parsing.py:145 | every gain in [0, 1] comes from ten times that setting |
| PopgenArgs.ParseDb | code/popgen/parsing.py:154-161 | accepted exactly for a readable level <= 0 (0 included); the gain is 10**(dB/20), in (0, 1] |
| PopgenArgs.DbRoundTrip | code/popgen/parsing.py:161 | 20*log10 of the gain gives the decibel level back |
| PopgenArgs.StrippedParts | code/popgen/parsing.py:171 | each piece is stripped |
| PopgenArgs.ChordPieces | code/popgen/parsing.py:171 | the kept pieces are non-blank stripped pieces, no more of them than parts |
| PopgenArgs.ToInts | code/popgen/parsing.py:171 | int() of every piece, in order, or none when one piece is not an integer |
| PopgenArgs.ChordPiecesKeepsClean | code/popgen/parsing.py:171 | clean pieces are all kept, in order |
| PopgenArgs.ChordLoopRoundTrip | code/popgen/parsing.py:164-181 | a non-empty list of roots written with commas parses back to the same list, in order |
| PopgenArgs.ChordLoopOutcomes | code/popgen/parsing.py:166-181 | the result is the int() values of the kept pieces in order; InvalidFormat iff a kept piece is not an integer; EmptyAfterParsing iff none is kept |
| PopgenArgs.RhythmBpm | code/popgen/parsing.py:79 | an absent or empty option falls back to bpm; otherwise int() of the option |
| Popgen.LogKnobUnitGain | code/popgen/popgen.py:55-62 | every accepted setting gives a gain in [0, 1]; it accepts what parsing.py accepts and agrees with it up to 9.9 |
| Popgen.ParseLinearKnob | code/popgen/popgen.py:75-78 | an accepted setting gives a tenth of itself |
| Popgen.LinearKnobAboveUnity | code/popgen/popgen.py:76-78 | 10.5 is accepted and gives 1.05, which parsing.py rejects |
| Popgen.ScaleOctave | code/popgen/popgen.py:107-109 | f(n+7) == f(n) + 12, floor semantics for negative n, and the major scale within an octave |
| Popgen.ScaleStep | code/popgen/popgen.py:107-109 | consecutive scale notes are 1 or 2 semitones apart |
| Popgen.ScaleIncreasing | code/popgen/popgen.py:107-109 | the key offset is strictly increasing |
| Popgen.ChordOctave | code/popgen/popgen.py:122-124 | g(p+3) == g(p) + 7, and positions 0, 1, 2 of a chord are offsets 0, 2, 4 |
| Popgen.ChordStep | code/popgen/popgen.py:122-124 | neighbouring chord positions are 2 or 3 scale notes apart |
| Popgen.Melody | code/popgen/popgen.py:139-144 | the first n steps give n notes |
| Popgen.MelodyAt | code/popgen/popgen.py:141-142 | note j is the chord tone at the position reached after j draws |
| Popgen.WalkBounds | code/popgen/popgen.py:143 | after n draws the position is at most n away, with the parity of n |
| Popgen.MelodyIncreasing | code/popgen/popgen.py:141-142 | the next chord position gives a strictly higher note |
| Popgen.MelodyMoves | code/popgen/popgen.py:141-143 | each step moves the position by exactly +1 or -1 and the note accordingly up or down |
| Popgen.MelodyState.constructor | code/popgen/popgen.py:194 | the global position starts at 0 |
| Popgen.MelodyState.PickNotes | code/popgen/popgen.py:127-144 | count notes (none for count <= 0), note i at the position after i draws; the position is left where the walk ends |
| PyText.Split | code/popgen/parsing.py:171 | str.split never returns an empty list |
| PyText.SplitJoin | code/adaptive-tone-control/basic_python/src/main.py:56-58 | joining the pieces gives the string back; no piece holds the separator; one piece more than separators |
| PyText.SplitWithoutSeparator | code/adaptive-tone-control/basic_python/src/main.py:56 | a string without the separator splits into itself |
| PyText.SplitAfterPiece | code/adaptive-tone-control/basic_python/src/main.py:56 | a separator-free piece followed by the separator is split off whole |
| PyText.JoinSplit | code/popgen/parsing.py:171 | separator-free pieces are recovered by splitting their join |
| PyText.LeadingSpaceSpec | code/popgen/parsing.py:171 | the leading run is whitespace and is followed by a non-space |
| PyText.TrailingSpaceSpec | code/popgen/parsing.py:171 | the trailing run is whitespace and is preceded by a non-space |
| PyText.StripBounds | code/popgen/parsing.py:171 | strip removes a whitespace prefix and suffix and nothing else |
| PyText.StripEnds | code/popgen/parsing.py:171 | a stripped string neither starts nor ends with whitespace |
| PyText.StripEmpty | code/popgen/parsing.py:171 | strip gives "" exactly for all-whitespace strings |
| PyText.StripUnchanged | code/popgen/parsing.py:171 | a string without surrounding whitespace is its own strip |
| PyText.Upper | code/interpolator/src/main.py:73 | upper() maps every character, keeping the length |
| PyText.Lower | code/interpolator/src/main.py:51 | lower() maps every character, keeping the length |
| PyText.LastIndexOf | code/interpolator/src/main.py:51 | the index of the last occurrence, or -1 when there is none |
| PyText.SuffixSpec | code/interpolator/src/main.py:51 | the suffix is empty or a final part of the name that starts with its only dot and is not the whole name |
| PyText.SuffixOfPlainName | code/clipped/clipped.py:33 | a plain name plus an extension has that extension as its suffix |
| BandTable.Lookup | code/adaptive-tone-control/basic_python/src/main.py:59 | a lookup finds a band exactly for a key of the dict, under that name |
| BandTable.LookupAt | code/adaptive-tone-control/src/energy_analysis.py:59 | with distinct keys the band found for a name is the one at its position |
| BandTable.StoreSpec | code/adaptive-tone-control/basic_python/src/main.py:59 | dict assignment: the key maps to the new range, the others keep theirs, keys stay distinct and grow by the key |
| BandsArgument.ParseBandDef | code/adaptive-tone-control/basic_python/src/main.py:57-59 | an accepted piece has low >= 1 and high <= nyquist - 1 |
| BandsArgument.ParseBandDefSpec | code/adaptive-tone-control/basic_python/src/main.py:57-59 | a piece is accepted iff it splits on ":" into exactly two parts and its range on "-" into exactly two numbers; the band then has the clamped range |
| BandsArgument.ParseBands | code/adaptive-tone-control/basic_python/src/main.py:52-60 | the loop over the pieces gives BandsOf |
| BandsArgument.ParsePiecesErrorPersists | code/adaptive-tone-control/basic_python/src/main.py:56-58 | a failing prefix fails the whole argument with the same error |
| BandsArgument.ParsePiecesAccepted | code/adaptive-tone-control/basic_python/src/main.py:56-59 | the argument is accepted iff every piece is |
| BandsArgument.ParsePiecesFirstError | code/adaptive-tone-control/basic_python/src/main.py:56-58 | a rejected argument reports the error of its first bad piece |
| BandsArgument.ParsePiecesKeys | code/adaptive-tone-control/basic_python/src/main.py:55-59 | the keys of the table are distinct and are the names defined |
| BandsArgument.ParsePiecesLookup | code/adaptive-tone-control/basic_python/src/main.py:59 | each name looks up to its last definition |
| BandsArgument.ParsePiecesBounds | code/adaptive-tone-control/basic_python/src/main.py:54-59 | every stored low is >= 1 and every stored high <= rate/2 - 1 |
| BandsArgument.SingleBandAccepted | code/adaptive-tone-control/basic_python/src/main.py:52-59 | "name:low-high" gives the one clamped band whatever the order of its bounds: low >= high is not rejected |
| BandsArgument.SingleDefinition | code/adaptive-tone-control/basic_python/src/main.py:57-59 | the piece "name:low-high" is parsed to its clamped band |
| ToneControl.Selected | code/adaptive-tone-control/basic_python/src/energy_analysis.py:28 | a bin is selected iff low <= freq < high (half-open) |
| ToneControl.BandEnergyBounds | code/adaptive-tone-control/basic_python/src/energy_analysis.py:29-31 | a band energy is non-negative and is 0 for a band with no bin |
| ToneControl.BandEnergySplit | code/adaptive-tone-control/src/energy_analysis.py:31-34 | bands meeting at mid split the energy of their union: no bin counted twice or lost |
| ToneControl.EnergyTableSpec | code/adaptive-tone-control/src/energy_analysis.py:29-35 | one entry per band name, each the band's energy, none negative |
| ToneControl.CalculateBandEnergy | code/adaptive-tone-control/src/energy_analysis.py:9-35 | the loop fills the dict EnergyTable of the FFT bins |
| ToneControl.TargetGains | code/adaptive-tone-control/src/energy_analysis.py:140-142 | one target gain per band of the energy dict |
| ToneControl.TargetGainsEqualise | code/adaptive-tone-control/src/energy_analysis.py:137-142 | gain times (energy + 1e-6) is the mean; more energy gives no larger gain; gains are non-negative |
| ToneControl.Smoothed | code/adaptive-tone-control/src/energy_analysis.py:98-101 | the smoothed dict has exactly the keys of current_gain |
| ToneControl.SmoothGain | code/adaptive-tone-control/src/energy_analysis.py:98-101 | KeyError exactly when a current band has no previous gain |
| ToneControl.SmoothedBetween | code/adaptive-tone-control/src/energy_analysis.py:99 | for alpha in [0, 1] each gain lies between previous and current; alpha 1 keeps previous, alpha 0 takes current |
| ToneControl.BandCutsSpec | code/adaptive-tone-control/src/energy_analysis.py:61-72 | for a positive Nyquist a band passes iff its clamped range is non-empty, the cut-offs being the clamped bounds over Nyquist; otherwise it fails |
| ToneControl.Zeros | code/adaptive-tone-control/src/energy_analysis.py:56 | zeros_like: n zeros |
| ToneControl.AddScaled | code/adaptive-tone-control/src/energy_analysis.py:79 | the accumulation keeps the signal's length |
| ToneControl.FilterBank | code/adaptive-tone-control/src/energy_analysis.py:56-81 | a successful bank output has the signal's length |
| ToneControl.FilterBankErrorPersists | code/adaptive-tone-control/src/energy_analysis.py:59-72 | a failing band stops the bank with its error |
| ToneControl.FilterBankOutcome | code/adaptive-tone-control/src/energy_analysis.py:59-72 | with every gain present, apply_gain fails iff some band's range fails, with the first such band's error |
| ToneControl.FilterBankSuperposition | code/adaptive-tone-control/src/energy_analysis.py:59-79 | the bank of two band tables is sample by sample the sum of their banks |
| ToneControl.ApplyGain | code/adaptive-tone-control/src/energy_analysis.py:38-81 | the in-place accumulation loop gives FilterBank |
| ToneControl.AddBand | code/adaptive-tone-control/src/energy_analysis.py:79 | filtered_signal += band_signal * gain updates the array as AddScaled says |
| ToneControl.InitialGains | code/adaptive-tone-control/src/energy_analysis.py:127 | gain 1.0 for every band, for those bands only |
| ToneControl.FrameAt | code/adaptive-tone-control/src/energy_analysis.py:131-133 | every scheduled frame has frame_size samples |
| ToneControl.FrameTarget | code/adaptive-tone-control/src/energy_analysis.py:136-142 | one target gain per band |
| ToneControl.GainsAfter | code/adaptive-tone-control/src/energy_analysis.py:145 | the smoothed gains always have one entry per band |
| ToneControl.Adjusted | code/adaptive-tone-control/src/energy_analysis.py:148 | with a valid band table each adjusted frame has frame_size samples |
| ToneControl.AdjustedFrames | code/adaptive-tone-control/src/energy_analysis.py:130-148 | one adjusted frame per scheduled frame |
| ToneControl.ScheduledFrames | code/adaptive-tone-control/src/energy_analysis.py:130-151 | one frame per scheduled frame |
| ToneControl.OutputAfter | code/adaptive-tone-control/src/energy_analysis.py:128-151 | the output has the input's length after any number of frames |
| ToneControl.DynamicToneControl | code/adaptive-tone-control/src/energy_analysis.py:104-153 | hop 0 is a division by zero; otherwise the loop returns ToneOutput |
| ToneControl.ToneFrame | code/adaptive-tone-control/src/energy_analysis.py:130-151 | one pass fails iff some band is invalid; otherwise it gives the next gains and adds frame i into the output |
| ToneControl.FrameStep | code/adaptive-tone-control/src/energy_analysis.py:131-148 | energies, target gains and smoothing give GainsAfter(i+1), and apply_gain on the frame gives FrameOutcome |
| ToneControl.ScheduledFrameAt | code/adaptive-tone-control/src/energy_analysis.py:148-151 | a frame that filters successfully is the frame added into the output |
| ToneControl.ToneOutputOutcome | code/adaptive-tone-control/src/energy_analysis.py:126-153 | the run fails iff some frame is processed and some band is invalid; otherwise the output has the input's length |
| ToneControl.ToneOutputUncovered | code/adaptive-tone-control/src/energy_analysis.py:128-151 | a sample no frame covers stays 0 |
| ToneControl.FirstInvalidSpec | code/adaptive-tone-control/src/energy_analysis.py:59-72 | a first invalid band exists iff some band is invalid |
| InstructionFile.ParseItemSpec | code/interpolator/src/main.py:67-90 | an item is accepted iff it is a dict with the three fields, a string vowel whose upper case is a substring of "AEIOU", an int offset and a positive int duration; fields are copied |
| InstructionFile.VowelTest | code/interpolator/src/main.py:79-80 | the vowel test is a substring test: "", "ae" and "IOU" pass, "AI" fails |
| InstructionFile.ParseItems | code/interpolator/src/main.py:66-93 | accepted iff every item is; the result has the input's length and order; otherwise the first bad item's error |
| InstructionFile.ParseInstructionFile | code/interpolator/src/main.py:35-93 | suffix, existence, decoding and list checks in that order, each with its error, then the items |
| InstructionFile.UpperCaseSuffixAccepted | code/interpolator/src/main.py:50-52 | a plain name ending in ".JSON" passes the suffix check |
| PitchInterpolation.Linspace | code/interpolator/src/interpolator/pitch.py:99 | linspace(0, 1, n) has n values |
| PitchInterpolation.InterpolatePitchContours | code/interpolator/src/interpolator/pitch.py:94-102 | the output is as long as the shorter contour |
| PitchInterpolation.LinspaceSpec | code/interpolator/src/interpolator/pitch.py:99 | each weight is in [0, 1]; the first is 0; for n >= 2 weight i is i/(n-1) and the last is 1 |
| PitchInterpolation.BlendBetween | code/interpolator/src/interpolator/pitch.py:102 | a blend with a weight in [0, 1] lies between its ends |
| PitchInterpolation.InterpolationSpec | code/interpolator/src/interpolator/pitch.py:99-102 | out[i] lies between a[i] and b[i]; out[0] == a[0]; for n >= 2, out[n-1] == b[n-1] |
| PitchInterpolation.SingleSample | code/interpolator/src/interpolator/pitch.py:99 | n = 1 gives [a[0]] |
| PitchInterpolation.InterpolateSame | code/interpolator/src/interpolator/pitch.py:102 | equal contours come back unchanged |
| ClippedSine.SampleCount | code/clipped/clipped.py:18 | a count exists exactly when int(rate*duration) is not negative |
| ClippedSine.SampleCountSpec | code/clipped/clipped.py:18 | for non-negative inputs the count is the whole part of rate*duration |
| ClippedSine.Int16 | code/clipped/clipped.py:22 | np.int16 lands in [-32768, 32767], keeps values already there and is congruent modulo 65536 |
| ClippedSine.Neg16 | code/clipped/clipped.py:24 | int16 negation stays in range |
| ClippedSine.ClipInPlace | code/clipped/clipped.py:21-24 | no level leaves the samples alone; with a level every sample is clipped in place at the int16 level |
| ClippedSine.ClipSampleSpec | code/clipped/clipped.py:23-24 | for a level c in [0, 32767]: the result is in [-c, c], above c becomes c, below -c becomes -c, the rest are unchanged |
| ClippedSine.ClipIdempotent | code/clipped/clipped.py:23-24 | clipping twice at a level is clipping once |
| ClippedSine.NegativeLevel | code/clipped/clipped.py:22-24 | a negative level turns every sample into -c |
| ClippedSine.SaveCheck | code/clipped/clipped.py:33-34 | the only error names the path |
| ClippedSine.SaveCheckCase | code/clipped/clipped.py:33-34 | "name.wav" passes and "name.WAV" fails: the check is case-sensitive |

## Left out

- Floating point is modelled as exact reals:
  - IEEE rounding, NaN and infinities are not modelled;
  - `hi == lo` in `save_spectrogram` is reported as a division of 0 by 0 (`ZeroOverZero`) instead of producing NaN pixels.
- Transcendental functions are parameters:
  - `exp(-2πik/N)`, `np.abs`, `log10`, `10**x` and `np.hanning` are not computed;
  - only the facts stated as preconditions are assumed of them (a half-turn root, a modulus, log10 undone by 10**x).
- Library code is a parameter and not modelled:
  - numpy's `compute_fft` (`fft_utils.py`);
  - scipy `butter`/`lfilter`, taken only to preserve the signal's length;
  - librosa, pyworld, parselmouth and the rest of `pitch.py` (`shift_pitch`, `extract_pitch_contour`, `modify_pitch_with_world`);
  - `interpolate_signals.py`, `formants.py`, `waveform_utils.py` and `visualization.py` are not part of this model.
- The file and device I/O of every program is not modelled: PNG writing and reading with its text metadata, `sf.read`/`sf.write`, stereo channel selection, playback, and the `main`/`parse_arguments` entry points. The spectrogram's minimum and maximum travel in the `Image` value instead of PNG text.
- `parse_instruction_file` gets the file's existence and the result of `json.load` as inputs: JSON text decoding is not modelled.
- `float()` and `int()` are parameters from text to an optional number. Their character-level grammar is not modelled.
- `random.random()` is a sequence of draws passed to `pick_notes`.
- `generate_sine_wave` receives the sine samples as its input array:
  - the values `amplitude * np.sin(...)` are not computed;
  - the final `np.int16(wave)` cast of the samples is not modelled.
- The popgen script body and the argparse plumbing of `parse_args` are not modelled (`make_note`, playback, wave output). The exception is the `rhythm_bpm` default.
- String case mapping covers ASCII letters only. Other characters are left unchanged.
- FftEngine.DitFft2: requires N to be a power of two. For other sizes Python still runs but computes no DFT, and the model does not follow it there.
- SpectrogramAnalysis.AudioToSpectrogram:
  - requires a power-of-two window, for the same reason as FftEngine.DitFft2;
  - requires `overlap <= window`: with a larger overlap the step is negative, Python's `//` then floors toward minus infinity and the slices start at negative indices, and the model does not follow that run. An overlap equal to the window is modelled as the ZeroDivisionError it raises.
- AudioReconstruction.SpectrogramToAudio:
  - requires a power-of-two window, for the same reason as FftEngine.DitFft2;
  - takes `overlap` as a natural number with `overlap <= window`. A negative overlap, or one larger than the window (a negative step with slices at negative indices), is not modelled. An overlap equal to the window (step 0) is modelled.
- ClippedSine.Int16: models `np.int16` of an out-of-range clip level as wrap-around modulo 2^16. Recent NumPy versions raise an OverflowError for such a Python int instead.
- ToneControl.MeanEnergy: with no bands numpy's mean is NaN; the model gives 0, which no band then uses.
- ToneControl.DynamicToneControl:
  - requires `frame_size > 0` and `hop_size >= 0`;
  - a negative hop (Python's `//` with a negative divisor) and an empty or negative frame size are not modelled.
- InstructionFile.ParseItem: a boolean offset or duration counts as the integer 0 or 1, as `isinstance(True, int)` does. Values of other JSON types are not distinguished further.
- BandsArgument.ParseRange: a range such as "-5-10" has an empty first part, which `float()` rejects. Negative bounds written with a leading minus sign therefore fail, as in Python.

## Findings

| source | as written | input that shows it | evidently intended | confidence | as-written member | corrected member |
|---|---|---|---|---|---|---|
| code/popgen/parsing.py:129-130 | a setting above 9.9 returns 10.0, though the docstring promises a gain between 0 and 1 | knob setting "9.95" gives 10.0 | return the unit gain 1.0, as popgen.py:60-61 does | high (not executed) | PopgenArgs.LogKnobAboveUnity | Popgen.LogKnobUnitGain |
| code/popgen/popgen.py:76-77 | the range check accepts settings up to 11, while the message and docstring say 0 to 10 and a gain in [0, 1] | knob setting "10.5" gives 1.05 | reject settings above 10, as parsing.py:143-144 does | high (not executed) | Popgen.LinearKnobAboveUnity | PopgenArgs.ParseLinearKnob |
