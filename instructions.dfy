/**
 * parse_instruction_file in code/interpolator/src/main.py: a JSON file
 * holding a list of notes, each an object with a vowel, a semitone offset
 * from middle C and a duration, becomes a list of Instruction records.
 *
 * Whether the file exists and what json.load decodes from it are inputs:
 * `isFile`, and `decoded`, which is None when the text is not valid JSON.
 */
module InstructionFile {
  import opened Outcomes
  import opened PyText

  /** A decoded JSON value; objects are dicts from key to value. */
  datatype Json =
    | JNull
    | JBool(b: bool)
    | JInt(i: int)
    | JFloat(r: real)
    | JString(s: string)
    | JArray(items: seq<Json>)
    | JObject(fields: map<string, Json>)

  datatype Instruction = Instruction(vowel: string, offset: int, duration: int)

  datatype InstructionError =
    | NotJsonFile(path: string)          // ValueError: the suffix is not .json
    | FileMissing(path: string)          // FileNotFoundError
    | DecodeError                        // json.JSONDecodeError
    | NotAList                           // ValueError: the top level is not a list
    | NotAnObject(index: nat)            // ValueError: an item is not a dict
    | MissingField(field: string, index: nat)  // ValueError from the KeyError
    | VowelNotText(index: nat)           // AttributeError: the vowel has no .upper()
    | UnrecognizedVowel(vowel: string)   // ValueError: not a part of "AEIOU"
    | OffsetNotInteger(index: nat)       // ValueError
    | DurationNotPositive(index: nat)    // ValueError

  /** isinstance(v, int): a JSON integer, or a boolean, which Python counts as an int. */
  predicate IsInt(v: Json)
  {
    v.JInt? || v.JBool?
  }

  /** The integer value of an int-like JSON value; True is 1 and False is 0. */
  function IntValue(v: Json): int
    requires IsInt(v)
  {
    if v.JInt? then v.i else if v.b then 1 else 0
  }

  const Vowels: string := "AEIOU"

  /**
   * The checks on item idx: it must be a dict; "vowel" is looked up and
   * upper-cased, then "offset" and "duration" are looked up; the vowel must
   * occur in "AEIOU"; the offset must be an int and the duration a positive
   * int.
   */
  function ParseItem(item: Json, idx: nat): Result<Instruction, InstructionError>
  {
    if !item.JObject? then Err(NotAnObject(idx))
    else if "vowel" !in item.fields then Err(MissingField("vowel", idx))
    else if !item.fields["vowel"].JString? then Err(VowelNotText(idx))
    else if "offset" !in item.fields then Err(MissingField("offset", idx))
    else if "duration" !in item.fields then Err(MissingField("duration", idx))
    else
      var vowel := Upper(item.fields["vowel"].s);
      var offset, duration := item.fields["offset"], item.fields["duration"];
      if !IsSubstring(vowel, Vowels) then Err(UnrecognizedVowel(vowel))
      else if !IsInt(offset) then Err(OffsetNotInteger(idx))
      else if !IsInt(duration) || IntValue(duration) <= 0 then Err(DurationNotPositive(idx))
      else Ok(Instruction(vowel, IntValue(offset), IntValue(duration)))
  }

  /**
   * An item is accepted exactly when it is a dict with the three fields, its
   * vowel is a string whose upper-case form occurs in "AEIOU", its offset is
   * an int and its duration an int above 0; the instruction then holds the
   * upper-cased vowel and the two integers, and the vowel is made of vowel
   * letters only.
   */
  lemma ParseItemSpec(item: Json, idx: nat)
    ensures ParseItem(item, idx).Ok? <==>
              item.JObject? && "vowel" in item.fields && "offset" in item.fields && "duration" in item.fields &&
              item.fields["vowel"].JString? && IsSubstring(Upper(item.fields["vowel"].s), Vowels) &&
              IsInt(item.fields["offset"]) &&
              IsInt(item.fields["duration"]) && IntValue(item.fields["duration"]) > 0
    ensures ParseItem(item, idx).Ok? ==>
              var ins := ParseItem(item, idx).value;
              ins.vowel == Upper(item.fields["vowel"].s) && ins.offset == IntValue(item.fields["offset"]) &&
              ins.duration == IntValue(item.fields["duration"]) && ins.duration > 0 &&
              |ins.vowel| <= |Vowels| && forall k :: 0 <= k < |ins.vowel| ==> ins.vowel[k] in Vowels
  {
    if ParseItem(item, idx).Ok? {
      var vowel := Upper(item.fields["vowel"].s);
      var i, j :| 0 <= i <= j <= |Vowels| && Vowels[i..j] == vowel;
      forall k | 0 <= k < |vowel|
        ensures vowel[k] in Vowels
      {
        assert vowel[k] == Vowels[i + k];
      }
    }
  }

  /**
   * The vowel test is a substring test, not a membership test: the empty
   * string, "ae" and "IOU" pass it, and "AI" does not.
   */
  lemma VowelTest()
    ensures IsSubstring(Upper(""), Vowels)
    ensures IsSubstring(Upper("ae"), Vowels)
    ensures IsSubstring(Upper("IOU"), Vowels)
    ensures !IsSubstring(Upper("AI"), Vowels)
  {
    assert Vowels[0..0] == Upper("");
    assert Vowels[0..2] == Upper("ae");
    assert Vowels[2..5] == Upper("IOU");
    assert Vowels[0] == 'A' && Vowels[1] == 'E' && Vowels[2] == 'I' && Vowels[3] == 'O' && Vowels[4] == 'U';
    forall i, j | 0 <= i <= j <= |Vowels|
      ensures Vowels[i..j] != "AI"
    {
      if j - i == 2 {
        assert Vowels[i..j][0] == Vowels[i] && Vowels[i..j][1] == Vowels[i + 1];
      }
    }
  }

  /**
   * The loop over the items: each is checked in turn and appended; the first
   * bad item stops the parse with its error.
   */
  method ParseItems(items: seq<Json>) returns (r: Result<seq<Instruction>, InstructionError>)
    ensures r.Ok? <==> forall i :: 0 <= i < |items| ==> ParseItem(items[i], i).Ok?
    ensures r.Ok? ==> |r.value| == |items| &&
                      forall i :: 0 <= i < |items| ==> r.value[i] == ParseItem(items[i], i).value
    ensures r.Err? ==> exists i :: 0 <= i < |items| && ParseItem(items[i], i) == Err(r.error) &&
                                   forall j :: 0 <= j < i ==> ParseItem(items[j], j).Ok?
  {
    var instructions: seq<Instruction> := [];
    for idx := 0 to |items|
      invariant |instructions| == idx
      invariant forall i :: 0 <= i < idx ==> ParseItem(items[i], i).Ok? &&
                                             instructions[i] == ParseItem(items[i], i).value
    {
      var instruction := ParseItem(items[idx], idx);
      if instruction.Err? {
        return Err(instruction.error);
      }
      instructions := instructions + [instruction.value];
    }
    r := Ok(instructions);
  }

  /** Whether the path names a JSON file, upper or lower case: path.suffix.lower() == ".json". */
  predicate JsonSuffix(path: string)
  {
    Lower(Suffix(path)) == ".json"
  }

  /**
   * parse_instruction_file: the suffix is checked before the file is
   * touched, then its existence, the decoding, and the top level, and then
   * the items in order.
   */
  method ParseInstructionFile(path: string, isFile: bool, decoded: Option<Json>)
    returns (r: Result<seq<Instruction>, InstructionError>)
    ensures !JsonSuffix(path) ==> r == Err(NotJsonFile(path))
    ensures JsonSuffix(path) && !isFile ==> r == Err(FileMissing(path))
    ensures JsonSuffix(path) && isFile && decoded.None? ==> r == Err(DecodeError)
    ensures JsonSuffix(path) && isFile && decoded.Some? && !decoded.value.JArray? ==> r == Err(NotAList)
    ensures r.Ok? <==> JsonSuffix(path) && isFile && decoded.Some? && decoded.value.JArray? &&
                       forall i :: 0 <= i < |decoded.value.items| ==> ParseItem(decoded.value.items[i], i).Ok?
    ensures r.Ok? ==> |r.value| == |decoded.value.items| &&
                      forall i :: 0 <= i < |r.value| ==> r.value[i] == ParseItem(decoded.value.items[i], i).value
  {
    if !JsonSuffix(path) {
      return Err(NotJsonFile(path));
    }
    if !isFile {
      return Err(FileMissing(path));
    }
    if decoded.None? {
      return Err(DecodeError);
    }
    var data := decoded.value;
    if !data.JArray? {
      return Err(NotAList);
    }
    r := ParseItems(data.items);
  }

  /**
   * The suffix test ignores case: a plain file name ending in ".JSON" is
   * accepted as well as one ending in ".json".
   */
  lemma UpperCaseSuffixAccepted(stem: string)
    requires |stem| > 0 && '/' !in stem && '.' !in stem
    ensures JsonSuffix(stem + ".JSON")
  {
    assert ".JSON"[1..] == "JSON";
    SuffixOfPlainName(stem, ".JSON");
    assert Lower(".JSON") == ".json";
  }
}
