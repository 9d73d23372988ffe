/**
 * parse_bands in code/adaptive-tone-control/basic_python/src/main.py: the
 * --bands argument "name:low-high,name:low-high,..." becomes the band table.
 * Each range is clamped to [1, nyquist - 1]; a later band with the same name
 * replaces the earlier one in place.
 *
 * float() is the parameter `toReal`: it returns None for a string Python
 * cannot convert.
 */
module BandsArgument {
  import opened Outcomes
  import opened PyText
  import opened BandTable

  /** The ValueError raised for a malformed band definition. */
  datatype BandsError =
    | NotNameAndRange(piece: string)   // the piece does not split on ':' into two parts
    | NotANumber(text: string)         // float() rejects one of the bounds
    | TooFewBounds(range: string)      // the range has no '-'
    | TooManyBounds(range: string)     // the range has more than one '-'

  /**
   * `low, high = map(float, range.split("-"))`. map is lazy, so the
   * conversions and the unpacking checks interleave: the first part is
   * converted, then a second part must exist and is converted, and then a
   * third part, if any, is converted before the unpacking reports too many
   * values.
   */
  function ParseRange(range: string, toReal: string -> Option<real>): Result<(real, real), BandsError>
  {
    var parts := Split(range, '-');
    match toReal(parts[0])
    case None => Err(NotANumber(parts[0]))
    case Some(low) =>
      if |parts| < 2 then Err(TooFewBounds(range))
      else
        match toReal(parts[1])
        case None => Err(NotANumber(parts[1]))
        case Some(high) =>
          if |parts| == 2 then Ok((low, high))
          else if toReal(parts[2]).None? then Err(NotANumber(parts[2]))
          else Err(TooManyBounds(range))
  }

  function Max(a: real, b: real): real { if a >= b then a else b }

  function Min(a: real, b: real): real { if a <= b then a else b }

  /**
   * One piece of the argument: `name, range = piece.split(":")`, the range
   * parsed, and the bounds clamped to max(low, 1) and min(high, nyquist - 1).
   */
  function ParseBandDef(piece: string, nyquist: real, toReal: string -> Option<real>): (r: Result<Band, BandsError>)
    ensures r.Ok? ==> r.value.low >= 1.0 && r.value.high <= nyquist - 1.0
  {
    var parts := Split(piece, ':');
    if |parts| != 2 then Err(NotNameAndRange(piece))
    else
      match ParseRange(parts[1], toReal)
      case Err(e) => Err(e)
      case Ok((low, high)) => Ok(Band(parts[0], Max(low, 1.0), Min(high, nyquist - 1.0)))
  }

  /**
   * A range is accepted exactly when it has two parts, both numbers, and
   * then it gives those two numbers; a piece is accepted exactly when it has
   * a name and an accepted range, and then it gives the band of that name
   * with the range clamped.
   */
  lemma ParseBandDefSpec(piece: string, nyquist: real, toReal: string -> Option<real>)
    ensures var parts := Split(piece, '-');
            var r := ParseRange(piece, toReal);
            (r.Ok? <==> |parts| == 2 && toReal(parts[0]).Some? && toReal(parts[1]).Some?) &&
            (r.Ok? ==> r.value == (toReal(parts[0]).value, toReal(parts[1]).value))
    ensures var parts := Split(piece, ':');
            var r := ParseBandDef(piece, nyquist, toReal);
            (r.Ok? <==> |parts| == 2 && ParseRange(parts[1], toReal).Ok?) &&
            (r.Ok? ==>
               var bounds := ParseRange(parts[1], toReal).value;
               r.value == Band(parts[0], Max(bounds.0, 1.0), Min(bounds.1, nyquist - 1.0)))
  {
  }

  /** The dict after the given pieces, in order; the first bad piece stops everything. */
  function ParsePieces(pieces: seq<string>, nyquist: real, toReal: string -> Option<real>)
    : Result<seq<Band>, BandsError>
  {
    if |pieces| == 0 then Ok([])
    else
      match ParsePieces(pieces[..|pieces| - 1], nyquist, toReal)
      case Err(e) => Err(e)
      case Ok(table) =>
        match ParseBandDef(pieces[|pieces| - 1], nyquist, toReal)
        case Err(e) => Err(e)
        case Ok(band) => Ok(Store(table, band))
  }

  /** parse_bands(bands_arg, sampling_rate), with nyquist = sampling_rate / 2. */
  function BandsOf(arg: string, rate: int, toReal: string -> Option<real>): Result<seq<Band>, BandsError>
  {
    ParsePieces(Split(arg, ','), (rate as real) / 2.0, toReal)
  }

  /**
   * parse_bands: the loop over the comma-separated pieces, each parsed and
   * stored into the dict in turn.
   */
  method ParseBands(arg: string, rate: int, toReal: string -> Option<real>)
    returns (r: Result<seq<Band>, BandsError>)
    ensures r == BandsOf(arg, rate, toReal)
  {
    var nyquist := (rate as real) / 2.0;
    var pieces := Split(arg, ',');
    var bands: seq<Band> := [];
    assert pieces[..0] == [];
    for i := 0 to |pieces|
      invariant ParsePieces(pieces[..i], nyquist, toReal) == Ok(bands)
    {
      assert pieces[..i + 1][..i] == pieces[..i];
      var band := ParseBandDef(pieces[i], nyquist, toReal);
      if band.Err? {
        ParsePiecesErrorPersists(pieces, nyquist, toReal, i + 1);
        return Err(band.error);
      }
      bands := Store(bands, band.value);
    }
    assert pieces[..|pieces|] == pieces;
    r := Ok(bands);
  }

  /** Once a prefix of the pieces fails, the whole argument fails with the same error. */
  lemma {:induction false} ParsePiecesErrorPersists(pieces: seq<string>, nyquist: real,
                                                    toReal: string -> Option<real>, i: nat)
    requires i <= |pieces| && ParsePieces(pieces[..i], nyquist, toReal).Err?
    ensures ParsePieces(pieces, nyquist, toReal) == ParsePieces(pieces[..i], nyquist, toReal)
    decreases |pieces| - i
  {
    if i < |pieces| {
      assert pieces[..i + 1][..i] == pieces[..i];
      ParsePiecesErrorPersists(pieces, nyquist, toReal, i + 1);
    } else {
      assert pieces[..i] == pieces;
    }
  }

  /** Every piece parses on its own. */
  predicate AllDefined(pieces: seq<string>, nyquist: real, toReal: string -> Option<real>)
  {
    forall i :: 0 <= i < |pieces| ==> ParseBandDef(pieces[i], nyquist, toReal).Ok?
  }

  /** The band definitions one per piece, duplicates included, in order. */
  function Definitions(pieces: seq<string>, nyquist: real, toReal: string -> Option<real>): (defs: seq<Band>)
    requires AllDefined(pieces, nyquist, toReal)
    ensures |defs| == |pieces|
  {
    seq(|pieces|, i requires 0 <= i < |pieces| && AllDefined(pieces, nyquist, toReal) =>
          ParseBandDef(pieces[i], nyquist, toReal).value)
  }

  /** The argument is accepted exactly when every piece is. */
  lemma {:induction false} ParsePiecesAccepted(pieces: seq<string>, nyquist: real, toReal: string -> Option<real>)
    ensures ParsePieces(pieces, nyquist, toReal).Ok? <==> AllDefined(pieces, nyquist, toReal)
  {
    if |pieces| > 0 {
      var init := pieces[..|pieces| - 1];
      ParsePiecesAccepted(init, nyquist, toReal);
      assert forall i :: 0 <= i < |init| ==> init[i] == pieces[i];
    }
  }

  /** A rejected argument reports the error of its first bad piece. */
  lemma {:induction false} ParsePiecesFirstError(pieces: seq<string>, nyquist: real, toReal: string -> Option<real>)
    requires ParsePieces(pieces, nyquist, toReal).Err?
    ensures exists i :: 0 <= i < |pieces| && AllDefined(pieces[..i], nyquist, toReal) &&
                        ParseBandDef(pieces[i], nyquist, toReal) == Err(ParsePieces(pieces, nyquist, toReal).error)
  {
    var init := pieces[..|pieces| - 1];
    if ParsePieces(init, nyquist, toReal).Err? {
      ParsePiecesFirstError(init, nyquist, toReal);
      var i :| 0 <= i < |init| && AllDefined(init[..i], nyquist, toReal) &&
               ParseBandDef(init[i], nyquist, toReal) == Err(ParsePieces(init, nyquist, toReal).error);
      assert init[..i] == pieces[..i];
      assert init[i] == pieces[i];
    } else {
      ParsePiecesAccepted(init, nyquist, toReal);
      assert pieces[..|pieces| - 1] == init;
    }
  }

  /** The keys of the accepted table are distinct, and they are the names defined. */
  lemma {:induction false} ParsePiecesKeys(pieces: seq<string>, nyquist: real, toReal: string -> Option<real>)
    requires AllDefined(pieces, nyquist, toReal)
    ensures ParsePieces(pieces, nyquist, toReal).Ok?
    ensures var table := ParsePieces(pieces, nyquist, toReal).value;
            DistinctNames(table) && NameSet(table) == NameSet(Definitions(pieces, nyquist, toReal))
  {
    ParsePiecesAccepted(pieces, nyquist, toReal);
    if |pieces| > 0 {
      var init := pieces[..|pieces| - 1];
      DefinitionsAppend(pieces, nyquist, toReal);
      ParsePiecesKeys(init, nyquist, toReal);
      var table := ParsePieces(init, nyquist, toReal).value;
      var band := ParseBandDef(pieces[|pieces| - 1], nyquist, toReal).value;
      var defs := Definitions(init, nyquist, toReal);
      NameSetAppend(defs, band);
      StoreSpec(table, band, band.name);
    }
  }

  /**
   * The accepted table behaves as the dict filled from the definitions in
   * order: each name looks up to its last definition.
   */
  lemma {:induction false} ParsePiecesLookup(pieces: seq<string>, nyquist: real, toReal: string -> Option<real>,
                                             name: string)
    requires AllDefined(pieces, nyquist, toReal)
    ensures ParsePieces(pieces, nyquist, toReal).Ok?
    ensures Lookup(ParsePieces(pieces, nyquist, toReal).value, name) == Lookup(Definitions(pieces, nyquist, toReal), name)
  {
    ParsePiecesAccepted(pieces, nyquist, toReal);
    if |pieces| > 0 {
      var init := pieces[..|pieces| - 1];
      DefinitionsAppend(pieces, nyquist, toReal);
      ParsePiecesLookup(init, nyquist, toReal, name);
      ParsePiecesKeys(init, nyquist, toReal);
      var table := ParsePieces(init, nyquist, toReal).value;
      var band := ParseBandDef(pieces[|pieces| - 1], nyquist, toReal).value;
      var defs := Definitions(init, nyquist, toReal);
      LookupAppend(defs, band, name);
      StoreSpec(table, band, name);
    }
  }

  /** The definitions of all pieces are those of all but the last, then the last one. */
  lemma DefinitionsAppend(pieces: seq<string>, nyquist: real, toReal: string -> Option<real>)
    requires |pieces| > 0 && AllDefined(pieces, nyquist, toReal)
    ensures AllDefined(pieces[..|pieces| - 1], nyquist, toReal)
    ensures Definitions(pieces, nyquist, toReal) ==
            Definitions(pieces[..|pieces| - 1], nyquist, toReal) +
            [ParseBandDef(pieces[|pieces| - 1], nyquist, toReal).value]
  {
    var init := pieces[..|pieces| - 1];
    assert forall i :: 0 <= i < |init| ==> init[i] == pieces[i];
    var all := Definitions(pieces, nyquist, toReal);
    var defs := Definitions(init, nyquist, toReal);
    assert forall i :: 0 <= i < |defs| ==> all[i] == defs[i];
  }

  /** Every stored range has low >= 1 and high <= nyquist - 1. */
  lemma {:induction false} ParsePiecesBounds(pieces: seq<string>, nyquist: real, toReal: string -> Option<real>)
    requires ParsePieces(pieces, nyquist, toReal).Ok?
    ensures var table := ParsePieces(pieces, nyquist, toReal).value;
            forall k :: 0 <= k < |table| ==> table[k].low >= 1.0 && table[k].high <= nyquist - 1.0
  {
    if |pieces| > 0 {
      var init := pieces[..|pieces| - 1];
      ParsePiecesBounds(init, nyquist, toReal);
      StoreBounds(ParsePieces(init, nyquist, toReal).value, ParseBandDef(pieces[|pieces| - 1], nyquist, toReal).value,
                  nyquist);
    }
  }

  /** Storing a band whose range is within [1, nyquist - 1] keeps every range there. */
  lemma StoreBounds(table: seq<Band>, band: Band, nyquist: real)
    requires forall k :: 0 <= k < |table| ==> table[k].low >= 1.0 && table[k].high <= nyquist - 1.0
    requires band.low >= 1.0 && band.high <= nyquist - 1.0
    ensures var r := Store(table, band);
            forall k :: 0 <= k < |r| ==> r[k].low >= 1.0 && r[k].high <= nyquist - 1.0
  {
  }

  /**
   * A single definition "name:low-high" is accepted whatever the order of
   * its bounds, and gives the one band with the clamped range: nothing
   * rejects a band whose low bound lies above its high bound.
   */
  lemma {:induction false} SingleBandAccepted(name: string, lowText: string, highText: string, rate: int,
                                             toReal: string -> Option<real>)
    requires ',' !in name && ':' !in name && '-' !in name
    requires ',' !in lowText && ':' !in lowText && '-' !in lowText
    requires ',' !in highText && ':' !in highText && '-' !in highText
    requires toReal(lowText).Some? && toReal(highText).Some?
    ensures var nyquist := (rate as real) / 2.0;
            BandsOf(name + [':'] + lowText + ['-'] + highText, rate, toReal) ==
            Ok([Band(name, Max(toReal(lowText).value, 1.0), Min(toReal(highText).value, nyquist - 1.0))])
  {
    var nyquist := (rate as real) / 2.0;
    var piece := name + [':'] + lowText + ['-'] + highText;
    var band := Band(name, Max(toReal(lowText).value, 1.0), Min(toReal(highText).value, nyquist - 1.0));
    SingleDefinition(name, lowText, highText, nyquist, toReal);
    SplitWithoutSeparator(piece, ',');
    var pieces := [piece];
    assert pieces[..0] == [];
    assert NameSet([]) == {};
    assert Store([], band) == [band];
    assert ParsePieces(pieces, nyquist, toReal) == Ok([band]);
  }

  /** The piece "name:low-high" on its own. */
  lemma SingleDefinition(name: string, lowText: string, highText: string, nyquist: real,
                         toReal: string -> Option<real>)
    requires ':' !in name && '-' !in name
    requires ',' !in lowText && ':' !in lowText && '-' !in lowText
    requires ',' !in highText && ':' !in highText && '-' !in highText
    requires toReal(lowText).Some? && toReal(highText).Some?
    ensures ParseBandDef(name + [':'] + lowText + ['-'] + highText, nyquist, toReal) ==
            Ok(Band(name, Max(toReal(lowText).value, 1.0), Min(toReal(highText).value, nyquist - 1.0)))
  {
    var range := lowText + ['-'] + highText;
    var piece := name + [':'] + range;
    assert piece == name + [':'] + lowText + ['-'] + highText;
    SplitWithoutSeparator(range, ':');
    SplitAfterPiece(name, range, ':');
    assert Split(piece, ':') == [name, range];
    SplitWithoutSeparator(highText, '-');
    SplitAfterPiece(lowText, highText, '-');
    assert Split(range, '-') == [lowText, highText];
  }
}
