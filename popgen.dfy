/**
 * code/popgen/popgen.py: its own knob parsers, the scale and chord
 * arithmetic of the melody, and pick_notes, which walks up and down the
 * chord tones. The note-name parser and parse_db are the same as in
 * parsing.py and are modelled once, in NoteGrammar and PopgenArgs.
 */
module Popgen {
  import opened Outcomes
  import opened PopgenArgs

  /**
   * parse_log_knob: like the one in parsing.py, but a setting above 9.9
   * gives the unit gain 1.
   */
  function ParseLogKnob(setting: Option<real>, dbAtZero: real): Result<Gain, SettingError>
  {
    match setting
    case None => Err(NotANumber)
    case Some(v) =>
      if !(0.0 <= v <= 10.0) then Err(OutOfRange(v))
      else if v < 0.1 then Ok(Linear(0.0))
      else if v > 9.9 then Ok(Linear(1.0))
      else Ok(PowerOfTen(-dbAtZero * (v - 10.0) / 200.0))
  }

  /**
   * The documented promise holds here: every accepted setting gives a gain
   * between 0 and 1 when the level at zero is not positive, and the two
   * versions agree everywhere except above 9.9.
   */
  lemma LogKnobUnitGain(setting: Option<real>, dbAtZero: real)
    requires dbAtZero <= 0.0
    ensures ParseLogKnob(setting, dbAtZero).Ok? ==> UnitGain(ParseLogKnob(setting, dbAtZero).value)
    ensures ParseLogKnob(setting, dbAtZero).Ok? <==> PopgenArgs.ParseLogKnob(setting, dbAtZero).Ok?
    ensures setting.Some? && setting.value <= 9.9 ==>
              ParseLogKnob(setting, dbAtZero) == PopgenArgs.ParseLogKnob(setting, dbAtZero)
  {
    if setting.Some? {
      var v := setting.value;
      if 0.1 <= v <= 9.9 {
        assert -dbAtZero * (v - 10.0) <= 0.0;
      }
    }
  }

  /**
   * parse_linear_knob as written: the check accepts settings up to 11, while
   * the message and the documentation say 0 to 10 and a gain of at most 1.
   */
  function ParseLinearKnob(setting: Option<real>): (r: Result<real, SettingError>)
    ensures r.Ok? ==> setting.Some? && 10.0 * r.value == setting.value
  {
    match setting
    case None => Err(NotANumber)
    case Some(v) => if !(0.0 <= v <= 11.0) then Err(OutOfRange(v)) else Ok(v / 10.0)
  }

  /** 10.5 is accepted and gives a gain above 1, which parsing.py rejects. */
  lemma LinearKnobAboveUnity()
    ensures ParseLinearKnob(Some(10.5)) == Ok(1.05)
    ensures PopgenArgs.ParseLinearKnob(Some(10.5)).Err?
  {
  }

  /** Semitone offsets of the seven degrees of the major scale. */
  const MajorScale: seq<int> := [0, 2, 4, 5, 7, 9, 11]

  /** Scale degrees of the root, third and fifth of a chord (one-based). */
  const MajorChord: seq<int> := [1, 3, 5]

  /**
   * note_to_key_offset: scale note n (any integer) lies n // 7 octaves up,
   * at degree n % 7. Python's // and % with a positive divisor round toward
   * negative infinity, which is what Dafny's / and % do for a positive divisor.
   */
  function NoteToKeyOffset(scaleNote: int): int
  {
    scaleNote / 7 * 12 + MajorScale[scaleNote % 7]
  }

  /** chord_to_note_offset: position p is chord tone p % 3, p // 3 octaves (7 scale notes) up. */
  function ChordToNoteOffset(position: int): int
  {
    position / 3 * 7 + MajorChord[position % 3] - 1
  }

  /**
   * Seven scale notes make an octave: the key offset is periodic up to 12
   * semitones, and within an octave it is the major scale.
   */
  lemma ScaleOctave(n: int)
    ensures NoteToKeyOffset(n + 7) == NoteToKeyOffset(n) + 12
    ensures 0 <= n < 7 ==> NoteToKeyOffset(n) == MajorScale[n]
  {
    assert (n + 7) / 7 == n / 7 + 1 && (n + 7) % 7 == n % 7;
  }

  /** The next scale note is one or two semitones higher. */
  lemma ScaleStep(n: int)
    ensures 1 <= NoteToKeyOffset(n + 1) - NoteToKeyOffset(n) <= 2
  {
    var q, r := n / 7, n % 7;
    if r < 6 {
      assert (n + 1) / 7 == q && (n + 1) % 7 == r + 1;
    } else {
      assert (n + 1) / 7 == q + 1 && (n + 1) % 7 == 0;
    }
  }

  /** Higher scale notes give strictly higher keys. */
  lemma {:induction false} ScaleIncreasing(m: int, n: int)
    requires m < n
    ensures NoteToKeyOffset(m) < NoteToKeyOffset(n)
    decreases n - m
  {
    ScaleStep(m);
    if m + 1 < n {
      ScaleIncreasing(m + 1, n);
    }
  }

  /**
   * Three chord positions make an octave of seven scale notes; positions
   * 0, 1 and 2 are the root, third and fifth (scale offsets 0, 2 and 4).
   */
  lemma ChordOctave(p: int)
    ensures ChordToNoteOffset(p + 3) == ChordToNoteOffset(p) + 7
    ensures ChordToNoteOffset(p) - ChordToNoteOffset(p / 3 * 3) == 2 * (p % 3)
  {
    assert (p + 3) / 3 == p / 3 + 1 && (p + 3) % 3 == p % 3;
    assert (p / 3 * 3) / 3 == p / 3 && (p / 3 * 3) % 3 == 0;
  }

  /** Neighbouring chord positions are a third apart: two scale notes, or three across the octave. */
  lemma ChordStep(p: int)
    ensures 2 <= ChordToNoteOffset(p + 1) - ChordToNoteOffset(p) <= 3
  {
    var r := p % 3;
    if r < 2 {
      assert (p + 1) / 3 == p / 3 && (p + 1) % 3 == r + 1;
    } else {
      assert (p + 1) / 3 == p / 3 + 1 && (p + 1) % 3 == 0;
    }
  }

  /** The step pick_notes takes after a draw: up for a draw above 0.5, down otherwise. */
  function Step(draw: real): int
  {
    if draw > 0.5 then 1 else -1
  }

  /** The chord position after the first n draws, starting from `start`. */
  function Walk(start: int, draws: nat -> real, n: nat): int
  {
    if n == 0 then start else Walk(start, draws, n - 1) + Step(draws(n - 1))
  }

  /** The melody note pick_notes emits at chord position p over chord root `root`. */
  function MelodyNote(root: int, p: int): int
  {
    NoteToKeyOffset(root + ChordToNoteOffset(p))
  }

  /** The notes of the first n steps of the walk, in order. */
  function Melody(root: int, start: int, draws: nat -> real, n: nat): (notes: seq<int>)
    ensures |notes| == n
  {
    if n == 0 then [] else Melody(root, start, draws, n - 1) + [MelodyNote(root, Walk(start, draws, n - 1))]
  }

  /** Note j of the melody is the chord tone at the position the walk has reached after j draws. */
  lemma {:induction false} MelodyAt(root: int, start: int, draws: nat -> real, n: nat, j: nat)
    requires j < n
    ensures Melody(root, start, draws, n)[j] == MelodyNote(root, Walk(start, draws, j))
  {
    if j < n - 1 {
      MelodyAt(root, start, draws, n - 1, j);
    }
  }

  /**
   * The walk moves one position per draw, so after n draws it is at most n
   * positions away, with the parity of n.
   */
  lemma {:induction false} WalkBounds(start: int, draws: nat -> real, n: nat)
    ensures -(n as int) <= Walk(start, draws, n) - start <= n
    ensures (Walk(start, draws, n) - start + n) % 2 == 0
  {
    if n > 0 {
      WalkBounds(start, draws, n - 1);
    }
  }

  /** The next chord position gives a strictly higher melody note. */
  lemma MelodyIncreasing(root: int, p: int)
    ensures MelodyNote(root, p) < MelodyNote(root, p + 1)
  {
    ChordStep(p);
    ScaleIncreasing(root + ChordToNoteOffset(p), root + ChordToNoteOffset(p + 1));
  }

  /** Consecutive melody notes are neighbouring chord tones: always a different, adjacent key. */
  lemma {:induction false} MelodyMoves(root: int, start: int, draws: nat -> real, i: nat)
    ensures var p, q := Walk(start, draws, i), Walk(start, draws, i + 1);
            (q == p + 1 && MelodyNote(root, p) < MelodyNote(root, q)) ||
            (q == p - 1 && MelodyNote(root, q) < MelodyNote(root, p))
  {
    var p := Walk(start, draws, i);
    var q := Walk(start, draws, i + 1);
    assert q == p + Step(draws(i));
    if q == p + 1 {
      MelodyIncreasing(root, p);
    } else {
      MelodyIncreasing(root, q);
    }
  }

  /**
   * The module-level state of popgen.py that pick_notes updates: the global
   * chord position, 0 when the script starts. random.random() is the
   * sequence of draws handed to each call.
   */
  class MelodyState {
    var position: int

    constructor ()
      ensures position == 0
    {
      position := 0;
    }

    /**
     * pick_notes: `count` notes (none when count is not positive); note i is
     * the chord tone at the position reached after i draws, and the position
     * is left where the walk ends.
     */
    method PickNotes(chordRoot: int, count: int, draws: nat -> real) returns (notes: seq<int>)
      modifies this
      ensures |notes| == if count > 0 then count else 0
      ensures notes == Melody(chordRoot, old(position), draws, |notes|)
      ensures position == Walk(old(position), draws, |notes|)
    {
      ghost var start := position;
      notes := [];
      var n := if count > 0 then count else 0;
      for i := 0 to n
        invariant notes == Melody(chordRoot, start, draws, i)
        invariant position == Walk(start, draws, i)
      {
        ghost var next := Walk(start, draws, i + 1);
        assert next == position + Step(draws(i));
        notes := notes + [MelodyNote(chordRoot, position)];
        position := position + (if draws(i) > 0.5 then 1 else -1);
        assert position == next;
      }
    }
  }
}
