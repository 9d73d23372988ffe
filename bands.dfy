/**
 * The band table of the tone-control programs: a Python dict from band name
 * to a (low, high) frequency range in Hz. It is kept as a sequence of bands
 * in insertion order, with distinct names, because the programs iterate it in
 * that order.
 */
module BandTable {
  import opened Outcomes

  datatype Band = Band(name: string, low: real, high: real)

  /** The keys of the dict. */
  function NameSet(bands: seq<Band>): set<string>
  {
    set i | 0 <= i < |bands| :: bands[i].name
  }

  /** A dict never holds a key twice. */
  predicate DistinctNames(bands: seq<Band>)
  {
    forall i, j :: 0 <= i < j < |bands| ==> bands[i].name != bands[j].name
  }

  /** bands[name], or None for a missing key. */
  function Lookup(bands: seq<Band>, name: string): (r: Option<Band>)
    ensures r.Some? <==> name in NameSet(bands)
    ensures r.Some? ==> r.value.name == name
  {
    if |bands| == 0 then None
    else if bands[|bands| - 1].name == name then Some(bands[|bands| - 1])
    else
      var r := Lookup(bands[..|bands| - 1], name);
      assert NameSet(bands) == NameSet(bands[..|bands| - 1]) + {bands[|bands| - 1].name} by {
        assert forall i :: 0 <= i < |bands| - 1 ==> bands[..|bands| - 1][i] == bands[i];
      }
      r
  }

  /**
   * bands[name] = (low, high): a key already present keeps its position and
   * takes the new range; a new key is appended.
   */
  function Store(bands: seq<Band>, band: Band): (r: seq<Band>)
  {
    if band.name in NameSet(bands) then
      seq(|bands|, i requires 0 <= i < |bands| => if bands[i].name == band.name then band else bands[i])
    else bands + [band]
  }

  /** The keys of a table with one more band at its end. */
  lemma {:induction false} NameSetAppend(bands: seq<Band>, band: Band)
    ensures NameSet(bands + [band]) == NameSet(bands) + {band.name}
  {
    var r := bands + [band];
    forall x | x in NameSet(r)
      ensures x in NameSet(bands) + {band.name}
    {
      var i :| 0 <= i < |r| && r[i].name == x;
      if i < |bands| {
        assert bands[i].name == x;
      }
    }
    forall x | x in NameSet(bands)
      ensures x in NameSet(r)
    {
      var i :| 0 <= i < |bands| && bands[i].name == x;
      assert r[i].name == x;
    }
    assert r[|bands|].name == band.name;
  }

  /** In a table with distinct names, the band found for a name is the one at its position. */
  lemma {:induction false} LookupAt(bands: seq<Band>, i: nat)
    requires DistinctNames(bands) && i < |bands|
    ensures Lookup(bands, bands[i].name) == Some(bands[i])
  {
    if i < |bands| - 1 {
      var init := bands[..|bands| - 1];
      assert init[i] == bands[i];
      LookupAt(init, i);
    }
  }

  /**
   * Store behaves as a dict assignment: the stored key now maps to the new
   * range, every other key keeps its range, the keys are the old keys plus the
   * new one, the keys stay distinct, and the table grows only for a new key.
   */
  lemma {:induction false} StoreSpec(bands: seq<Band>, band: Band, name: string)
    requires DistinctNames(bands)
    ensures DistinctNames(Store(bands, band))
    ensures NameSet(Store(bands, band)) == NameSet(bands) + {band.name}
    ensures Lookup(Store(bands, band), name) == if name == band.name then Some(band) else Lookup(bands, name)
    ensures |Store(bands, band)| == if band.name in NameSet(bands) then |bands| else |bands| + 1
  {
    var r := Store(bands, band);
    if band.name in NameSet(bands) {
      assert forall i :: 0 <= i < |r| ==> r[i].name == bands[i].name;
      assert NameSet(r) == NameSet(bands);
      if name in NameSet(bands) {
        var i :| 0 <= i < |bands| && bands[i].name == name;
        LookupAt(r, i);
        LookupAt(bands, i);
      }
    } else {
      NameSetAppend(bands, band);
      assert r[..|r| - 1] == bands;
    }
  }

  /** Looking up in a table with one more band at its end. */
  lemma LookupAppend(bands: seq<Band>, band: Band, name: string)
    ensures Lookup(bands + [band], name) == if band.name == name then Some(band) else Lookup(bands, name)
  {
    assert (bands + [band])[..|bands|] == bands;
  }
}
