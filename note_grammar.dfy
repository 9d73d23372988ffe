/**
 * parse_note, which code/popgen/parsing.py and code/popgen/popgen.py both
 * define in the same way: a note name is matched in full against
 * ([A-G]b?)(\[([0-8])\])?, looked up among the twelve canonical names, and
 * turned into the key number index + 12 * octave, the octave being 4 when
 * none is given.
 */
module NoteGrammar {
  import opened Outcomes
  import opened PyText

  /** The canonical note names; the name at position k has index k. */
  const Names: seq<string> := ["C", "Db", "D", "Eb", "E", "F", "Gb", "G", "Ab", "A", "Bb", "B"]

  /** What a match captures: group 1 (letter and optional flat) and group 3 (octave digit). */
  datatype NoteMatch = NoteMatch(name: string, octave: Option<int>)

  /** ValueError for a string the pattern rejects, KeyError for a name missing from the table. */
  datatype NoteError = InvalidFormat | UnknownName(name: string)

  predicate IsLetter(c: char) { 'A' <= c <= 'G' }

  predicate IsOctaveDigit(c: char) { '0' <= c <= '8' }

  /** A capture the pattern can produce. */
  predicate WellFormed(m: NoteMatch)
  {
    (|m.name| == 1 || (|m.name| == 2 && m.name[1] == 'b')) && IsLetter(m.name[0]) &&
    (m.octave.Some? ==> 0 <= m.octave.value <= 8)
  }

  /** The only string that produces a given capture. */
  function Render(m: NoteMatch): string
    requires WellFormed(m)
  {
    m.name + (if m.octave.Some? then "[" + [('0' as int + m.octave.value) as char] + "]" else "")
  }

  /** re.fullmatch of ([A-G]b?)(\[([0-8])\])? with its captures. */
  function MatchNote(s: string): (r: Option<NoteMatch>)
    ensures r.Some? ==> WellFormed(r.value)
  {
    if |s| == 0 || !IsLetter(s[0]) then None
    else
      var nameLength := if |s| >= 2 && s[1] == 'b' then 2 else 1;
      var rest := s[nameLength..];
      if rest == "" then Some(NoteMatch(s[..nameLength], None))
      else if |rest| == 3 && rest[0] == '[' && IsOctaveDigit(rest[1]) && rest[2] == ']' then
        Some(NoteMatch(s[..nameLength], Some(rest[1] as int - '0' as int)))
      else None
  }

  /** A matched string is exactly the rendering of its capture. */
  lemma {:induction false} MatchIsRendering(s: string)
    ensures MatchNote(s).Some? ==> Render(MatchNote(s).value) == s
  {
  }

  /** Every capture the pattern can produce is matched from its rendering. */
  lemma {:induction false} RenderingMatches(m: NoteMatch)
    requires WellFormed(m)
    ensures MatchNote(Render(m)) == Some(m)
  {
    var s := Render(m);
    assert s[..|m.name|] == m.name;
    if m.octave.Some? {
      assert s[|m.name|..] == "[" + [('0' as int + m.octave.value) as char] + "]";
    }
  }

  /** The dictionary lookup note_names[name]. */
  function NoteIndex(name: string): Option<nat>
  {
    if name == "C" then Some(0) else if name == "Db" then Some(1) else if name == "D" then Some(2)
    else if name == "Eb" then Some(3) else if name == "E" then Some(4) else if name == "F" then Some(5)
    else if name == "Gb" then Some(6) else if name == "G" then Some(7) else if name == "Ab" then Some(8)
    else if name == "A" then Some(9) else if name == "Bb" then Some(10) else if name == "B" then Some(11)
    else None
  }

  /** The lookup finds a name exactly at its position in the list of names. */
  lemma {:induction false} NoteIndexMatchesNames(name: string)
    ensures NoteIndex(name).Some? <==> name in Names
    ensures NoteIndex(name).Some? ==> NoteIndex(name).value < 12 && Names[NoteIndex(name).value] == name
  {
  }

  /** parse_note: fullmatch, upper-case the letter, default octave 4, index + 12 * octave. */
  function ParseNote(s: string): Result<int, NoteError>
  {
    match MatchNote(s)
    case None => Err(InvalidFormat)
    case Some(m) =>
      var name := [UpperChar(m.name[0])] + m.name[1..];
      var octave := if m.octave.Some? then m.octave.value else 4;
      match NoteIndex(name)
      case None => Err(UnknownName(name))
      case Some(index) => Ok(index + 12 * octave)
  }

  /** Key k written as its name with an explicit octave: the name of k % 12, octave k / 12. */
  function NoteString(k: nat): string
    requires k <= 107
  {
    Names[k % 12] + "[" + [('0' as int + k / 12) as char] + "]"
  }

  /**
   * The outcomes of parse_note: a string outside the pattern is a ValueError;
   * of the fourteen names the pattern allows, "Cb" and "Fb" are missing from
   * the table and give a KeyError; every other match is the key
   * index + 12 * octave, which lies in 0 .. 107.
   */
  lemma {:induction false} ParseNoteOutcomes(s: string)
    ensures MatchNote(s).None? <==> ParseNote(s) == Err(InvalidFormat)
    ensures MatchNote(s).Some? ==>
              (ParseNote(s).Err? <==> MatchNote(s).value.name == "Cb" || MatchNote(s).value.name == "Fb")
    ensures ParseNote(s).Ok? ==>
              var m := MatchNote(s).value;
              var octave := if m.octave.Some? then m.octave.value else 4;
              NoteIndex(m.name).Some? &&
              ParseNote(s).value == NoteIndex(m.name).value + 12 * octave &&
              0 <= ParseNote(s).value <= 107
  {
    if MatchNote(s).Some? {
      var m := MatchNote(s).value;
      assert [UpperChar(m.name[0])] + m.name[1..] == m.name;
    }
  }

  /** Every key 0 .. 107 is parsed back from its name with an explicit octave. */
  lemma {:induction false} NoteStringRoundTrip(k: nat)
    requires k <= 107
    ensures ParseNote(NoteString(k)) == Ok(k)
  {
    var name := Names[k % 12];
    var m := NoteMatch(name, Some(k / 12));
    assert Render(m) == NoteString(k);
    RenderingMatches(m);
    assert [UpperChar(name[0])] + name[1..] == name;
    NoteIndexMatchesNames(name);
  }

  /** Without a bracketed octave the note is in octave 4. */
  lemma {:induction false} DefaultOctave(name: string)
    requires name in Names
    ensures ParseNote(name) == ParseNote(name + "[4]")
    ensures ParseNote(name).Ok?
  {
    NoteIndexMatchesNames(name);
    RenderingMatches(NoteMatch(name, None));
    RenderingMatches(NoteMatch(name, Some(4)));
    assert Render(NoteMatch(name, None)) == name;
    assert Render(NoteMatch(name, Some(4))) == name + "[4]";
  }
}
