/**
 * code/clipped/clipped.py: the sample count and the clipping step of
 * generate_sine_wave, and the file-type guard of save_to_wav.
 *
 * The sine values themselves (amplitude * np.sin(...)) are the input array;
 * the clip level goes through np.int16 first, which wraps an integer outside
 * [-32768, 32767] around, and its negation is int16 negation, which maps
 * -32768 to itself.
 */
module ClippedSine {
  import opened Outcomes
  import opened PyText

  datatype ClipError =
    | NegativeCount(count: int)   // np.linspace rejects a negative number of samples
    | NotWav(path: string)        // save_to_wav: the suffix is not exactly ".wav"

  /** int(x): truncation toward zero. */
  function Trunc(x: real): int
  {
    if x >= 0.0 then x.Floor else -((-x).Floor)
  }

  /**
   * int(sample_rate * duration), the number of samples np.linspace is asked
   * for; a negative count is an error there.
   */
  function SampleCount(rate: int, duration: real): (r: Result<nat, ClipError>)
    ensures r.Ok? <==> Trunc(rate as real * duration) >= 0
  {
    var n := Trunc(rate as real * duration);
    if n < 0 then Err(NegativeCount(n)) else Ok(n)
  }

  /** The count is the whole part of rate * duration: it is at most that product and less than 1 below it. */
  lemma SampleCountSpec(rate: int, duration: real)
    requires rate >= 0 && duration >= 0.0
    ensures SampleCount(rate, duration).Ok?
    ensures var n := SampleCount(rate, duration).value as real;
            n <= rate as real * duration < n + 1.0
  {
    ProductNonNegative(rate as real, duration);
  }

  lemma ProductNonNegative(x: real, y: real)
    requires x >= 0.0 && y >= 0.0
    ensures x * y >= 0.0
  {
  }

  /** np.int16(c): the integer taken modulo 2^16 into [-32768, 32767]. */
  function Int16(c: int): (r: int)
    ensures -32768 <= r <= 32767
    ensures -32768 <= c <= 32767 ==> r == c
    ensures (r - c) % 65536 == 0
  {
    (c + 32768) % 65536 - 32768
  }

  /** Negation of an int16: -(-32768) overflows back to -32768. */
  function Neg16(c: int): (r: int)
    requires -32768 <= c <= 32767
    ensures -32768 <= r <= 32767
  {
    if c == -32768 then -32768 else -c
  }

  /** One sample after both masks: first wave > c becomes c, then wave < -c becomes -c. */
  function ClipSample(x: real, c: int): real
    requires -32768 <= c <= 32767
  {
    var y := if x > c as real then c as real else x;
    if y < Neg16(c) as real then Neg16(c) as real else y
  }

  /**
   * The clipping step of generate_sine_wave, in place: with no clip level
   * the samples are left alone; otherwise the level is converted to int16
   * and the two masked assignments are made one after the other.
   */
  method ClipInPlace(wave: array<real>, clip: Option<int>)
    modifies wave
    ensures clip.None? ==> wave[..] == old(wave[..])
    ensures clip.Some? ==> forall i :: 0 <= i < wave.Length ==> wave[i] == ClipSample(old(wave[i]), Int16(clip.value))
  {
    if clip.Some? {
      var c := Int16(clip.value);
      forall i | 0 <= i < wave.Length && wave[i] > c as real {
        wave[i] := c as real;
      }
      var low := Neg16(c);
      forall i | 0 <= i < wave.Length && wave[i] < low as real {
        wave[i] := low as real;
      }
    }
  }

  /**
   * For a level c in [0, 32767] a clipped sample lies in [-c, c]; a sample
   * above c becomes c, one below -c becomes -c, and every other sample is
   * unchanged.
   */
  lemma ClipSampleSpec(x: real, c: int)
    requires 0 <= c <= 32767
    ensures -(c as real) <= ClipSample(x, c) <= c as real
    ensures x > c as real ==> ClipSample(x, c) == c as real
    ensures x < -(c as real) ==> ClipSample(x, c) == -(c as real)
    ensures -(c as real) <= x <= c as real ==> ClipSample(x, c) == x
  {
  }

  /** Clipping twice at the same level is clipping once. */
  lemma ClipIdempotent(x: real, c: int)
    requires 0 <= c <= 32767
    ensures ClipSample(ClipSample(x, c), c) == ClipSample(x, c)
  {
    ClipSampleSpec(x, c);
    ClipSampleSpec(ClipSample(x, c), c);
  }

  /**
   * Nothing checks the sign of the level: for a negative level the first
   * mask lowers every sample above c to c, and the second then raises every
   * sample below -c, all of them, to -c.
   */
  lemma NegativeLevel(x: real, c: int)
    requires -32768 < c < 0
    ensures ClipSample(x, c) == -(c as real)
  {
  }

  /**
   * save_to_wav's guard: the path must have the suffix ".wav" exactly,
   * letter case included.
   */
  function SaveCheck(path: string): (r: Result<(), ClipError>)
    ensures r.Err? ==> r.error == NotWav(path)
  {
    if Suffix(path) != ".wav" then Err(NotWav(path)) else Ok(())
  }

  /** "name.wav" passes the guard and "name.WAV" does not. */
  lemma SaveCheckCase(stem: string)
    requires |stem| > 0 && '/' !in stem && '.' !in stem
    ensures SaveCheck(stem + ".wav").Ok?
    ensures SaveCheck(stem + ".WAV").Err?
  {
    assert ".wav"[1..] == "wav";
    assert ".WAV"[1..] == "WAV";
    SuffixOfPlainName(stem, ".wav");
    SuffixOfPlainName(stem, ".WAV");
  }
}
