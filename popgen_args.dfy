/**
 * The argument parsers of code/popgen/parsing.py: the knob and decibel
 * settings, the chord loop and the rhythm tempo.
 *
 * float(text) and int(text) are not modelled character by character: a
 * knob or decibel parser receives the value float() produced (None when it
 * raised), and the chord-loop parser receives int() as a parameter. A gain
 * of the form 10 ** e is returned as the exponent e, so that no
 * transcendental function is needed.
 */
module PopgenArgs {
  import opened Outcomes
  import opened PyText

  /** A linear gain, either computed outright or as a power of ten. */
  datatype Gain = Linear(value: real) | PowerOfTen(exponent: real)

  /**
   * A gain in the unit interval [0, 1]. For 10 ** e that is e <= 0, since
   * 10 ** e is positive and increasing in e, and equals 1 at e == 0.
   */
  predicate UnitGain(g: Gain)
  {
    match g
    case Linear(v) => 0.0 <= v <= 1.0
    case PowerOfTen(e) => e <= 0.0
  }

  /** The ValueErrors a knob or decibel setting can raise. */
  datatype SettingError = NotANumber | OutOfRange(value: real)

  /** The ValueErrors of parse_chord_loop and of the rhythm tempo. */
  datatype ListError = EmptyInput | InvalidFormat | EmptyAfterParsing

  /**
   * parse_log_knob: the setting must lie in [0, 10]; below 0.1 it is
   * silence, above 9.9 it returns 10.0, and otherwise the gain is the
   * decibel value db_at_zero * (10 - v) / 10 turned into a power of ten.
   */
  function ParseLogKnob(setting: Option<real>, dbAtZero: real): Result<Gain, SettingError>
  {
    match setting
    case None => Err(NotANumber)
    case Some(v) =>
      if v < 0.0 || v > 10.0 then Err(OutOfRange(v))
      else if v < 0.1 then Ok(Linear(0.0))
      else if v > 9.9 then Ok(Linear(10.0))
      else Ok(PowerOfTen(-dbAtZero * (v - 10.0) / 200.0))
  }

  /**
   * Between 0.1 and 9.9 the knob follows the decibel curve: the exponent is
   * the decibel level db_at_zero * (10 - v) / 10 over 20, which is at most
   * 0 and grows with the setting when db_at_zero is not positive.
   */
  lemma LogKnobCurve(v: real, w: real, dbAtZero: real)
    requires 0.1 <= v <= w <= 9.9 && dbAtZero <= 0.0
    ensures ParseLogKnob(Some(v), dbAtZero) == Ok(PowerOfTen(dbAtZero * (10.0 - v) / 10.0 / 20.0))
    ensures UnitGain(ParseLogKnob(Some(v), dbAtZero).value)
    ensures ParseLogKnob(Some(v), dbAtZero).value.exponent <= ParseLogKnob(Some(w), dbAtZero).value.exponent
  {
    assert -dbAtZero * (w - v) >= 0.0;
  }

  /**
   * What the setting parsers reject: a value float() could not read, and a
   * value outside [0, 10].
   */
  lemma KnobErrors(setting: Option<real>, dbAtZero: real)
    ensures ParseLogKnob(setting, dbAtZero).Err? <==> setting.None? || setting.value < 0.0 || setting.value > 10.0
    ensures ParseLinearKnob(setting).Err? <==> setting.None? || setting.value < 0.0 || setting.value > 10.0
  {
  }

  /**
   * The documented promise of parse_log_knob, a gain between 0 and 1, does
   * not hold: 9.95 is a valid setting and gives 10.0.
   */
  lemma LogKnobAboveUnity()
    ensures ParseLogKnob(Some(9.95), -40.0) == Ok(Linear(10.0))
    ensures !UnitGain(ParseLogKnob(Some(9.95), -40.0).value)
  {
  }

  /** parse_linear_knob: a setting in [0, 10] scaled down by 10. */
  function ParseLinearKnob(setting: Option<real>): (r: Result<real, SettingError>)
    ensures r.Ok? ==> setting.Some? && 0.0 <= r.value <= 1.0 && 10.0 * r.value == setting.value
  {
    match setting
    case None => Err(NotANumber)
    case Some(v) => if v < 0.0 || v > 10.0 then Err(OutOfRange(v)) else Ok(v / 10.0)
  }

  /** Every gain in [0, 1] is reached, by the setting ten times as large. */
  lemma LinearKnobOnto(g: real)
    requires 0.0 <= g <= 1.0
    ensures ParseLinearKnob(Some(10.0 * g)) == Ok(g)
  {
  }

  /**
   * parse_db: a level in decibels, which must not be positive, as the gain
   * 10 ** (dB / 20).
   */
  function ParseDb(level: Option<real>): (r: Result<Gain, SettingError>)
    ensures r.Ok? <==> level.Some? && level.value <= 0.0
    ensures r.Ok? ==> r.value.PowerOfTen? && UnitGain(r.value) && 20.0 * r.value.exponent == level.value
  {
    match level
    case None => Err(NotANumber)
    case Some(db) => if db > 0.0 then Err(OutOfRange(db)) else Ok(PowerOfTen(db / 20.0))
  }

  /** The decibel level is recovered from the gain: 20 * log10(gain). */
  function DecibelsOf(g: Gain): real
    requires g.PowerOfTen?
  {
    20.0 * g.exponent
  }

  lemma DbRoundTrip(db: real)
    requires db <= 0.0
    ensures ParseDb(Some(db)).Ok? && DecibelsOf(ParseDb(Some(db)).value) == db
  {
  }

  /** The pieces of the chord-loop string that are kept: stripped, non-blank, in order. */
  function ChordPieces(parts: seq<string>): (pieces: seq<string>)
    ensures |pieces| <= |parts|
    ensures forall i :: 0 <= i < |pieces| ==> pieces[i] != "" && pieces[i] in StrippedParts(parts)
  {
    if |parts| == 0 then []
    else
      var piece := Strip(parts[0]);
      (if piece == "" then [] else [piece]) + ChordPieces(parts[1..])
  }

  function StrippedParts(parts: seq<string>): (stripped: seq<string>)
    ensures |stripped| == |parts|
    ensures forall i :: 0 <= i < |parts| ==> stripped[i] == Strip(parts[i])
  {
    seq(|parts|, i requires 0 <= i < |parts| => Strip(parts[i]))
  }

  /** int() applied to every piece; None as soon as one piece is not an integer. */
  function ToInts(pieces: seq<string>, toInt: string -> Option<int>): (r: Option<seq<int>>)
    ensures r.Some? <==> forall i :: 0 <= i < |pieces| ==> toInt(pieces[i]).Some?
    ensures r.Some? ==> |r.value| == |pieces| &&
                        forall i :: 0 <= i < |pieces| ==> r.value[i] == toInt(pieces[i]).value
  {
    if |pieces| == 0 then Some([])
    else
      match toInt(pieces[0])
      case None => None
      case Some(x) =>
        match ToInts(pieces[1..], toInt)
        case None => None
        case Some(rest) => Some([x] + rest)
  }

  /**
   * parse_chord_loop: an empty string is rejected; otherwise the string is
   * split on commas, each piece is stripped, blank pieces are skipped and the
   * others converted with int(); a piece int() rejects, or nothing left,
   * is an error.
   */
  function ParseChordLoop(text: string, toInt: string -> Option<int>): Result<seq<int>, ListError>
  {
    if text == "" then Err(EmptyInput)
    else
      match ToInts(ChordPieces(Split(text, ',')), toInt)
      case None => Err(InvalidFormat)
      case Some(roots) => if roots == [] then Err(EmptyAfterParsing) else Ok(roots)
  }

  /** Pieces that are already stripped and non-blank are all kept. */
  lemma {:induction false} ChordPiecesKeepsClean(parts: seq<string>)
    requires forall i :: 0 <= i < |parts| ==> Strip(parts[i]) == parts[i] && parts[i] != ""
    ensures ChordPieces(parts) == parts
  {
    if |parts| > 0 {
      ChordPiecesKeepsClean(parts[1..]);
      assert [parts[0]] + parts[1..] == parts;
    }
  }

  /** A chord root rendered as text that int() reads back and that needs no stripping. */
  ghost predicate Renders(render: int -> string, toInt: string -> Option<int>)
  {
    forall x :: toInt(render(x)) == Some(x) && |render(x)| > 0 && ',' !in render(x) &&
                !IsSpace(render(x)[0]) && !IsSpace(render(x)[|render(x)| - 1])
  }

  function RenderAll(roots: seq<int>, render: int -> string): (texts: seq<string>)
    ensures |texts| == |roots|
  {
    seq(|roots|, i requires 0 <= i < |roots| => render(roots[i]))
  }

  /**
   * The round trip of parse_chord_loop: a non-empty list of chord roots,
   * written with any rendering int() reads back and joined with commas, is
   * parsed to the same list, in the same order.
   */
  lemma {:induction false} ChordLoopRoundTrip(roots: seq<int>, render: int -> string, toInt: string -> Option<int>)
    requires |roots| >= 1 && Renders(render, toInt)
    ensures ParseChordLoop(Join(RenderAll(roots, render), ','), toInt) == Ok(roots)
  {
    var texts := RenderAll(roots, render);
    forall i | 0 <= i < |texts|
      ensures Strip(texts[i]) == texts[i] && texts[i] != "" && ',' !in texts[i]
      ensures toInt(texts[i]) == Some(roots[i])
    {
      var x := roots[i];
      assert texts[i] == render(x);
      assert toInt(render(x)) == Some(x) && |render(x)| > 0 && ',' !in render(x) &&
             !IsSpace(render(x)[0]) && !IsSpace(render(x)[|render(x)| - 1]);
      StripUnchanged(texts[i]);
    }
    JoinSplit(texts, ',');
    ChordPiecesKeepsClean(texts);
    var text := Join(texts, ',');
    assert text != "" by {
      JoinNonEmpty(texts, ',');
    }
    var r := ToInts(texts, toInt);
    assert r.Some?;
    assert r.value == roots;
  }

  /** Joining a non-empty first piece gives a non-empty string. */
  lemma {:induction false} JoinNonEmpty(parts: seq<string>, sep: char)
    requires |parts| >= 1 && parts[0] != ""
    ensures Join(parts, sep) != ""
  {
    if |parts| > 1 {
      assert |Join(parts, sep)| >= |parts[0]|;
    }
  }

  /** What parse_chord_loop returns: the int() values of the kept pieces, in order. */
  lemma {:induction false} ChordLoopOutcomes(text: string, toInt: string -> Option<int>)
    ensures var r := ParseChordLoop(text, toInt);
            var pieces := ChordPieces(Split(text, ','));
            (r.Ok? ==> |r.value| == |pieces| >= 1 &&
                       forall i :: 0 <= i < |pieces| ==> toInt(pieces[i]) == Some(r.value[i])) &&
            (r == Err(InvalidFormat) <==> text != "" && exists i :: 0 <= i < |pieces| && toInt(pieces[i]).None?) &&
            (r == Err(EmptyAfterParsing) <==> text != "" && pieces == [])
  {
  }

  /**
   * The rhythm tempo: int(rhythm_bpm) when the option was given a non-empty
   * value, the main tempo otherwise.
   */
  function RhythmBpm(option: Option<string>, bpm: int, toInt: string -> Option<int>): (r: Result<int, ListError>)
    ensures option.None? || option.value == "" ==> r == Ok(bpm)
    ensures option.Some? && option.value != "" ==>
              (r.Ok? <==> toInt(option.value).Some?) && (r.Ok? ==> r.value == toInt(option.value).value)
  {
    if option.None? || option.value == "" then Ok(bpm)
    else
      match toInt(option.value)
      case None => Err(InvalidFormat)
      case Some(n) => Ok(n)
  }
}
