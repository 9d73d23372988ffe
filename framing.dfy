/**
 * The frame schedule shared by the STFT in code/fft/fft.py and the tone
 * control loop in energy_analysis.py: frames of `size` samples whose starts
 * are `hop` apart, as many as `(length - size) // hop + 1` says.
 */
module Framing {

  /**
   * Python's `range((length - size) // hop + 1)` has this many elements.
   * Dafny's `/` agrees with Python's `//` for a positive divisor, and a
   * range over a count that is zero or negative is empty.
   */
  function FrameCount(length: int, size: int, hop: int): (count: nat)
    requires hop > 0
  {
    var q := (length - size) / hop + 1;
    if q < 0 then 0 else q
  }

  /**
   * Every scheduled frame lies inside the signal, and one more frame would
   * not fit. In particular a signal shorter than a frame has no frames.
   */
  lemma FrameSchedule(length: int, size: int, hop: int)
    requires hop > 0
    ensures var count := FrameCount(length, size, hop);
            count * hop + size > length &&
            (count > 0 ==> (count - 1) * hop + size <= length) &&
            (length < size <==> count == 0)
  {
    var q := (length - size) / hop;
    var r := (length - size) % hop;
    assert length - size == q * hop + r && 0 <= r < hop;
    if q >= 0 {
      assert (q + 1) * hop == q * hop + hop;
    } else {
      assert q * hop <= -hop by {
        assert q <= -1;
        assert q * hop == -((-q) * hop);
        assert (-q) * hop >= hop;
      }
    }
  }

  /** Frame i of the schedule, starting at i*hop, ends inside the signal. */
  lemma {:induction false} FrameInside(length: int, size: int, hop: int, i: nat)
    requires hop > 0 && i < FrameCount(length, size, hop)
    ensures 0 <= i * hop && i * hop + size <= length
  {
    var count := FrameCount(length, size, hop);
    FrameSchedule(length, size, hop);
    var d: nat := count - 1 - i;
    assert (count - 1) * hop == i * hop + d * hop;
    assert d * hop >= 0;
  }

  /** Python's slice `s[lo:hi]` for 0 <= lo: clamped to the sequence, empty when hi <= lo. */
  function Slice<T>(s: seq<T>, lo: nat, hi: int): (r: seq<T>)
    ensures lo + |r| <= |s| || |r| == 0
    ensures hi <= |s| && lo <= hi ==> r == s[lo..hi]
  {
    var b := if hi < lo then lo else hi;
    var e := if b < |s| then b else |s|;
    if lo < e then s[lo..e] else []
  }
}
