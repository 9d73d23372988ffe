/**
 * code/adaptive-tone-control/src/energy_analysis.py: band energies from a
 * magnitude spectrum, a bank of band-pass filters with per-band gains,
 * exponential smoothing of the gains, and the frame loop of
 * dynamic_tone_control that equalises the band energies frame by frame and
 * overlap-adds the filtered frames. calculate_band_energy_from_signal is the
 * same in code/adaptive-tone-control/basic_python/src/energy_analysis.py.
 *
 * compute_fft is the parameter `computeFft` (a signal to its frequency bins
 * and magnitudes), and the scipy Butterworth filter the parameter `bandpass`
 * (normalised low and high cut-offs and a signal to the filtered signal).
 */
module ToneControl {
  import opened Outcomes
  import opened BandTable
  import opened Framing
  import opened OverlapAddition

  /** One frequency bin of compute_fft: its frequency in Hz and its magnitude. */
  datatype Bin = Bin(freq: real, magnitude: real)

  /** The normalised cut-offs of one band-pass filter. */
  datatype Cuts = Cuts(low: real, high: real)

  /**
   * What can go wrong: a band whose normalised range is not inside (0, 1)
   * (ValueError), a zero Nyquist frequency (ZeroDivisionError), a band
   * without a gain, a band without a previous gain, or a hop size of 0
   * (KeyError, KeyError, ZeroDivisionError).
   */
  datatype ToneError =
    | InvalidRange(name: string, lowCut: real, highCut: real)
    | ZeroNyquist
    | MissingGain(name: string)
    | MissingPreviousGain
    | ZeroHop

  /** The 1e-6 added to each band energy before dividing by it. */
  const Epsilon: real := 0.000001

  /** The filters keep the length of the signal, as lfilter does. */
  ghost predicate LengthPreserving(bandpass: (real, real, seq<real>) -> seq<real>)
  {
    forall low, high, s :: |bandpass(low, high, s)| == |s|
  }

  // ---------------------------------------------------------------------
  // Band energy

  /** np.where((f >= low) & (f < high)): the bins of the half-open band, in order. */
  function Selected(bins: seq<Bin>, low: real, high: real): (r: seq<Bin>)
    ensures forall b :: b in r ==> b in bins && low <= b.freq < high
    ensures forall i :: 0 <= i < |bins| && low <= bins[i].freq < high ==> bins[i] in r
  {
    if |bins| == 0 then []
    else
      var rest := Selected(bins[1..], low, high);
      assert forall i :: 1 <= i < |bins| ==> bins[i] == bins[1..][i - 1];
      if low <= bins[0].freq < high then [bins[0]] + rest else rest
  }

  /** np.sum(m ** 2) */
  function SumSquares(bins: seq<Bin>): real
  {
    if |bins| == 0 then 0.0 else bins[0].magnitude * bins[0].magnitude + SumSquares(bins[1..])
  }

  /** The energy of a band: the sum of the squared magnitudes of its bins. */
  function BandEnergy(bins: seq<Bin>, low: real, high: real): real
  {
    SumSquares(Selected(bins, low, high))
  }

  lemma {:induction false} SumSquaresNonNegative(bins: seq<Bin>)
    ensures SumSquares(bins) >= 0.0
  {
    if |bins| > 0 {
      SumSquaresNonNegative(bins[1..]);
    }
  }

  /**
   * A band energy is never negative, and a band that contains no bin has
   * energy 0.
   */
  lemma {:induction false} BandEnergyBounds(bins: seq<Bin>, low: real, high: real)
    ensures BandEnergy(bins, low, high) >= 0.0
    ensures (forall i :: 0 <= i < |bins| ==> !(low <= bins[i].freq < high)) ==> BandEnergy(bins, low, high) == 0.0
  {
    SumSquaresNonNegative(Selected(bins, low, high));
    if forall i :: 0 <= i < |bins| ==> !(low <= bins[i].freq < high) {
      assert Selected(bins, low, high) == [];
    }
  }

  /** The first bin adds its squared magnitude to a band exactly when it lies in it. */
  lemma {:induction false} BandEnergyFirst(bins: seq<Bin>, low: real, high: real)
    requires |bins| > 0
    ensures BandEnergy(bins, low, high) ==
            (if low <= bins[0].freq < high then bins[0].magnitude * bins[0].magnitude else 0.0) +
            BandEnergy(bins[1..], low, high)
  {
    var rest := Selected(bins[1..], low, high);
    if low <= bins[0].freq < high {
      assert Selected(bins, low, high) == [bins[0]] + rest;
      assert ([bins[0]] + rest)[1..] == rest;
    }
  }

  /**
   * Half-open bands that meet at `mid` split the energy of their union
   * between them: no bin is counted twice or lost.
   */
  lemma {:induction false} BandEnergySplit(bins: seq<Bin>, low: real, mid: real, high: real)
    requires low <= mid <= high
    ensures BandEnergy(bins, low, high) == BandEnergy(bins, low, mid) + BandEnergy(bins, mid, high)
  {
    if |bins| > 0 {
      BandEnergySplit(bins[1..], low, mid, high);
      BandEnergyFirst(bins, low, high);
      BandEnergyFirst(bins, low, mid);
      BandEnergyFirst(bins, mid, high);
    }
  }

  /** The dict the loop of calculate_band_energy_from_signal fills, one band after the other. */
  function EnergyTable(bins: seq<Bin>, bands: seq<Band>): map<string, real>
  {
    if |bands| == 0 then map[]
    else
      var band := bands[|bands| - 1];
      EnergyTable(bins, bands[..|bands| - 1])[band.name := BandEnergy(bins, band.low, band.high)]
  }

  /**
   * The energy dict has exactly one entry per band name, each the band's
   * energy, which is not negative.
   */
  lemma {:induction false} EnergyTableSpec(bins: seq<Bin>, bands: seq<Band>)
    requires DistinctNames(bands)
    ensures EnergyTable(bins, bands).Keys == NameSet(bands)
    ensures forall i :: 0 <= i < |bands| ==>
              EnergyTable(bins, bands)[bands[i].name] == BandEnergy(bins, bands[i].low, bands[i].high)
    ensures forall n :: n in EnergyTable(bins, bands) ==> EnergyTable(bins, bands)[n] >= 0.0
  {
    EnergyTableKeys(bins, bands);
    EnergyTableNonNegative(bins, bands);
    forall i | 0 <= i < |bands|
      ensures EnergyTable(bins, bands)[bands[i].name] == BandEnergy(bins, bands[i].low, bands[i].high)
    {
      EnergyTableAt(bins, bands, i);
    }
  }

  lemma {:induction false} EnergyTableKeys(bins: seq<Bin>, bands: seq<Band>)
    ensures EnergyTable(bins, bands).Keys == NameSet(bands)
  {
    if |bands| > 0 {
      var init := bands[..|bands| - 1];
      EnergyTableKeys(bins, init);
      assert bands == init + [bands[|bands| - 1]];
      NameSetAppend(init, bands[|bands| - 1]);
    }
  }

  lemma {:induction false} EnergyTableNonNegative(bins: seq<Bin>, bands: seq<Band>)
    ensures forall n :: n in EnergyTable(bins, bands) ==> EnergyTable(bins, bands)[n] >= 0.0
  {
    if |bands| > 0 {
      var last := bands[|bands| - 1];
      EnergyTableNonNegative(bins, bands[..|bands| - 1]);
      BandEnergyBounds(bins, last.low, last.high);
    }
  }

  lemma {:induction false} EnergyTableAt(bins: seq<Bin>, bands: seq<Band>, i: nat)
    requires DistinctNames(bands) && i < |bands|
    ensures bands[i].name in EnergyTable(bins, bands)
    ensures EnergyTable(bins, bands)[bands[i].name] == BandEnergy(bins, bands[i].low, bands[i].high)
  {
    var init := bands[..|bands| - 1];
    if i < |init| {
      assert init[i] == bands[i];
      assert DistinctNames(init) by {
        forall j, k | 0 <= j < k < |init| ensures init[j].name != init[k].name {
          assert init[j] == bands[j] && init[k] == bands[k];
        }
      }
      EnergyTableAt(bins, init, i);
      assert bands[i].name != bands[|bands| - 1].name;
    }
  }

  /**
   * calculate_band_energy_from_signal: one FFT of the signal, then for each
   * band in order band_energy[name] = the band's energy.
   */
  method CalculateBandEnergy(signal: seq<real>, bands: seq<Band>, computeFft: seq<real> -> seq<Bin>)
    returns (energy: map<string, real>)
    ensures energy == EnergyTable(computeFft(signal), bands)
  {
    var bins := computeFft(signal);
    energy := map[];
    for i := 0 to |bands|
      invariant energy == EnergyTable(bins, bands[..i])
    {
      var band := bands[i];
      energy := energy[band.name := BandEnergy(bins, band.low, band.high)];
      assert bands[..i + 1][..i] == bands[..i];
    }
    assert bands[..|bands|] == bands;
  }

  // ---------------------------------------------------------------------
  // Gains

  /** np.mean of the band energies, summed in band order; 0 for no bands. */
  function EnergySum(energy: map<string, real>, bands: seq<Band>): real
    requires NameSet(bands) <= energy.Keys
  {
    if |bands| == 0 then 0.0
    else
      assert NameSet(bands[..|bands| - 1]) <= NameSet(bands) by {
        assert forall i :: 0 <= i < |bands| - 1 ==> bands[..|bands| - 1][i] == bands[i];
      }
      assert bands[|bands| - 1].name in NameSet(bands);
      EnergySum(energy, bands[..|bands| - 1]) + energy[bands[|bands| - 1].name]
  }

  /**
   * The mean band energy. With no bands numpy's mean is NaN, but then there
   * is no band to use it for; the model gives 0.
   */
  function MeanEnergy(energy: map<string, real>, bands: seq<Band>): real
    requires NameSet(bands) <= energy.Keys
  {
    if |bands| == 0 then 0.0 else EnergySum(energy, bands) / (|bands| as real)
  }

  /** current_gain = {band: avg / (energy + 1e-6)}: the gain that brings each band to the mean. */
  function TargetGains(energy: map<string, real>, average: real): (gains: map<string, real>)
    requires forall n :: n in energy ==> energy[n] >= 0.0
    ensures gains.Keys == energy.Keys
  {
    map n | n in energy :: average / (energy[n] + Epsilon)
  }

  /**
   * The target gains equalise: each band's gain times its (offset) energy is
   * the mean, so a band with more energy gets a gain no larger than a band
   * with less, and no gain is negative when the mean is not.
   */
  lemma TargetGainsEqualise(energy: map<string, real>, average: real, n: string, m: string)
    requires forall k :: k in energy ==> energy[k] >= 0.0
    requires n in energy && m in energy && average >= 0.0
    ensures TargetGains(energy, average)[n] * (energy[n] + Epsilon) == average
    ensures TargetGains(energy, average)[n] >= 0.0
    ensures energy[n] <= energy[m] ==> TargetGains(energy, average)[m] <= TargetGains(energy, average)[n]
  {
    var dn, dm := energy[n] + Epsilon, energy[m] + Epsilon;
    var x, y := average / dn, average / dm;
    assert x * dn == average && y * dm == average;
    if energy[n] <= energy[m] {
      ProductMonotone(x, dn, dm);
      CancelPositive(y, x, dm);
    }
  }

  /** Multiplying by a non-negative factor keeps an inequality. */
  lemma ProductMonotone(x: real, a: real, b: real)
    requires x >= 0.0 && a <= b
    ensures x * a <= x * b
  {
    assert x * b - x * a == x * (b - a);
  }

  /** A positive factor can be cancelled from an inequality. */
  lemma CancelPositive(y: real, x: real, d: real)
    requires d > 0.0 && y * d <= x * d
    ensures y <= x
  {
    assert (x - y) * d >= 0.0;
  }

  /** alpha * prev + (1 - alpha) * cur for every band of `current`. */
  function Smoothed(previous: map<string, real>, current: map<string, real>, alpha: real): (gains: map<string, real>)
    requires current.Keys <= previous.Keys
    ensures gains.Keys == current.Keys
  {
    map n | n in current :: alpha * previous[n] + (1.0 - alpha) * current[n]
  }

  /**
   * smooth_gain: the exponential moving average over the bands of
   * current_gain; a band missing from prev_gain raises KeyError.
   */
  function SmoothGain(previous: map<string, real>, current: map<string, real>, alpha: real)
    : (r: Result<map<string, real>, ToneError>)
    ensures r.Ok? <==> current.Keys <= previous.Keys
    ensures r.Err? ==> r.error == MissingPreviousGain
  {
    if current.Keys <= previous.Keys then Ok(Smoothed(previous, current, alpha)) else Err(MissingPreviousGain)
  }

  /**
   * For a smoothing factor in [0, 1] each smoothed gain lies between the
   * previous and the current one; a factor of 1 keeps the previous gains and
   * a factor of 0 takes the current ones.
   */
  lemma SmoothedBetween(previous: map<string, real>, current: map<string, real>, alpha: real, n: string)
    requires current.Keys <= previous.Keys && n in current && 0.0 <= alpha <= 1.0
    ensures var g, p, c := Smoothed(previous, current, alpha)[n], previous[n], current[n];
            (p <= c ==> p <= g <= c) && (c <= p ==> c <= g <= p)
    ensures alpha == 1.0 ==> Smoothed(previous, current, alpha)[n] == previous[n]
    ensures alpha == 0.0 ==> Smoothed(previous, current, alpha)[n] == current[n]
  {
    var p, c := previous[n], current[n];
    var g := Smoothed(previous, current, alpha)[n];
    assert g == alpha * p + (1.0 - alpha) * c;
    assert alpha * p + (1.0 - alpha) * c == p + (1.0 - alpha) * (c - p);
    assert alpha * p + (1.0 - alpha) * c == c + alpha * (p - c);
    if p <= c {
      assert g == c - alpha * (c - p);
      ProductNonNegative(1.0 - alpha, c - p);
      ProductNonNegative(alpha, c - p);
    } else {
      assert g == p - (1.0 - alpha) * (p - c);
      ProductNonNegative(1.0 - alpha, p - c);
      ProductNonNegative(alpha, p - c);
    }
  }

  lemma ProductNonNegative(x: real, y: real)
    requires x >= 0.0 && y >= 0.0
    ensures x * y >= 0.0
  {
  }

  // ---------------------------------------------------------------------
  // The filter bank

  function Max(a: real, b: real): real { if a >= b then a else b }

  function Min(a: real, b: real): real { if a <= b then a else b }

  /**
   * The cut-offs of one band: its range clamped to [1, nyquist - 1], divided
   * by the Nyquist frequency, and required to satisfy 0 < low < high < 1.
   */
  function BandCuts(band: Band, nyquist: real): Result<Cuts, ToneError>
  {
    var low := Max(band.low, 1.0);
    var high := Min(band.high, nyquist - 1.0);
    if nyquist == 0.0 then Err(ZeroNyquist)
    else
      var lowCut, highCut := low / nyquist, high / nyquist;
      if 0.0 < lowCut < highCut < 1.0 then Ok(Cuts(lowCut, highCut))
      else Err(InvalidRange(band.name, lowCut, highCut))
  }

  /**
   * After clamping, the bounds 0 and 1 of the range check can only fail for
   * a Nyquist frequency that is not positive: for a positive one a band is
   * accepted exactly when its clamped range is not empty.
   */
  lemma BandCutsSpec(band: Band, nyquist: real)
    ensures nyquist <= 0.0 ==> BandCuts(band, nyquist).Err?
    ensures nyquist > 0.0 ==>
              (BandCuts(band, nyquist).Ok? <==> Max(band.low, 1.0) < Min(band.high, nyquist - 1.0))
    ensures BandCuts(band, nyquist).Ok? ==>
              BandCuts(band, nyquist).value.low * nyquist == Max(band.low, 1.0) &&
              BandCuts(band, nyquist).value.high * nyquist == Min(band.high, nyquist - 1.0)
  {
    var low := Max(band.low, 1.0);
    var high := Min(band.high, nyquist - 1.0);
    if nyquist < 0.0 {
      QuotientSign(low, nyquist);
    } else if nyquist > 0.0 {
      QuotientOrder(0.0, low, nyquist);
      QuotientOrder(low, high, nyquist);
      QuotientOrder(high, nyquist, nyquist);
    }
  }

  /** A positive number divided by a negative one is negative. */
  lemma QuotientSign(a: real, d: real)
    requires a > 0.0 && d < 0.0
    ensures a / d < 0.0
  {
    assert (a / d) * d == a;
  }

  /** Dividing by a positive number keeps the order both ways. */
  lemma QuotientOrder(a: real, b: real, d: real)
    requires d > 0.0
    ensures a < b <==> a / d < b / d
    ensures (a / d) * d == a && (b / d) * d == b
  {
    var x, y := a / d, b / d;
    assert x * d == a && y * d == b;
    assert b - a == (y - x) * d;
    if x < y {
      ProductPositive(y - x, d);
    }
    if a < b {
      PositiveFactor(y - x, d);
    }
  }

  /** A product with a positive factor is positive only if the other factor is. */
  lemma PositiveFactor(x: real, d: real)
    requires d > 0.0 && x * d > 0.0
    ensures x > 0.0
  {
    if x <= 0.0 {
      ProductNonNegative(-x, d);
    }
  }

  lemma ProductPositive(x: real, y: real)
    requires x > 0.0 && y > 0.0
    ensures x * y > 0.0
  {
  }

  /** np.zeros_like */
  function Zeros(n: nat): (z: seq<real>)
    ensures |z| == n && forall t :: 0 <= t < n ==> z[t] == 0.0
  {
    seq(n, t requires 0 <= t < n => 0.0)
  }

  /** filtered_signal += band_signal * g */
  function AddScaled(sum: seq<real>, bandSignal: seq<real>, g: real): (r: seq<real>)
    requires |bandSignal| == |sum|
    ensures |r| == |sum|
  {
    seq(|sum|, t requires 0 <= t < |sum| => sum[t] + bandSignal[t] * g)
  }

  /**
   * The result of apply_gain: starting from zeros, each band in order adds
   * its filtered signal times its gain, and the first band that fails stops
   * everything.
   */
  function FilterBank(signal: seq<real>, gain: map<string, real>, nyquist: real, bands: seq<Band>,
                      bandpass: (real, real, seq<real>) -> seq<real>): (r: Result<seq<real>, ToneError>)
    requires LengthPreserving(bandpass)
    ensures r.Ok? ==> |r.value| == |signal|
  {
    if |bands| == 0 then Ok(Zeros(|signal|))
    else
      match FilterBank(signal, gain, nyquist, bands[..|bands| - 1], bandpass)
      case Err(e) => Err(e)
      case Ok(sum) =>
        var band := bands[|bands| - 1];
        match BandCuts(band, nyquist)
        case Err(e) => Err(e)
        case Ok(cuts) =>
          if band.name !in gain then Err(MissingGain(band.name))
          else Ok(AddScaled(sum, bandpass(cuts.low, cuts.high, signal), gain[band.name]))
  }

  /** A band of the prefix that fails makes the whole bank fail in the same way. */
  lemma {:induction false} FilterBankErrorPersists(signal: seq<real>, gain: map<string, real>, nyquist: real,
                                                   bands: seq<Band>, bandpass: (real, real, seq<real>) -> seq<real>, i: nat)
    requires LengthPreserving(bandpass) && i <= |bands|
    requires FilterBank(signal, gain, nyquist, bands[..i], bandpass).Err?
    ensures FilterBank(signal, gain, nyquist, bands, bandpass) == FilterBank(signal, gain, nyquist, bands[..i], bandpass)
    decreases |bands| - i
  {
    if i < |bands| {
      var longer := bands[..i + 1];
      assert longer[..i] == bands[..i];
      FilterBankErrorPersists(signal, gain, nyquist, bands, bandpass, i + 1);
    } else {
      assert bands[..i] == bands;
    }
  }

  /** The first band whose cut-offs fail, in table order. */
  function FirstInvalid(bands: seq<Band>, nyquist: real): Option<ToneError>
  {
    if |bands| == 0 then None
    else
      match FirstInvalid(bands[..|bands| - 1], nyquist)
      case Some(e) => Some(e)
      case None =>
        match BandCuts(bands[|bands| - 1], nyquist)
        case Err(e) => Some(e)
        case Ok(_) => None
  }

  /**
   * When every band has a gain, apply_gain fails exactly when some band's
   * range fails, with the error of the first such band, whatever the signal
   * and the gain values are.
   */
  lemma {:induction false} FilterBankOutcome(signal: seq<real>, gain: map<string, real>, nyquist: real,
                                             bands: seq<Band>, bandpass: (real, real, seq<real>) -> seq<real>)
    requires LengthPreserving(bandpass) && NameSet(bands) <= gain.Keys
    ensures FilterBank(signal, gain, nyquist, bands, bandpass).Err? <==> FirstInvalid(bands, nyquist).Some?
    ensures FilterBank(signal, gain, nyquist, bands, bandpass).Err? ==>
              FilterBank(signal, gain, nyquist, bands, bandpass).error == FirstInvalid(bands, nyquist).value
  {
    if |bands| > 0 {
      var init := bands[..|bands| - 1];
      assert NameSet(init) <= NameSet(bands) by {
        assert forall i :: 0 <= i < |init| ==> init[i] == bands[i];
      }
      assert bands[|bands| - 1].name in NameSet(bands);
      FilterBankOutcome(signal, gain, nyquist, init, bandpass);
    }
  }

  /**
   * Bands contribute independently: the bank of two tables one after the
   * other is, sample by sample, the sum of the two banks.
   */
  lemma {:induction false} FilterBankSuperposition(signal: seq<real>, gain: map<string, real>, nyquist: real,
                                                   first: seq<Band>, second: seq<Band>,
                                                   bandpass: (real, real, seq<real>) -> seq<real>)
    requires LengthPreserving(bandpass)
    requires FilterBank(signal, gain, nyquist, first, bandpass).Ok?
    requires FilterBank(signal, gain, nyquist, second, bandpass).Ok?
    ensures FilterBank(signal, gain, nyquist, first + second, bandpass).Ok?
    ensures forall t :: 0 <= t < |signal| ==>
              FilterBank(signal, gain, nyquist, first + second, bandpass).value[t] ==
              FilterBank(signal, gain, nyquist, first, bandpass).value[t] +
              FilterBank(signal, gain, nyquist, second, bandpass).value[t]
    decreases |second|
  {
    var all := first + second;
    if |second| == 0 {
      assert all == first;
    } else {
      var init := second[..|second| - 1];
      assert all[..|all| - 1] == first + init;
      assert all[|all| - 1] == second[|second| - 1];
      FilterBankSuperposition(signal, gain, nyquist, first, init, bandpass);
    }
  }

  /**
   * apply_gain: the filtered signal starts as zeros; each band in order is
   * clamped and normalised, checked, filtered, and added in times its gain.
   */
  method ApplyGain(signal: seq<real>, gain: map<string, real>, rate: int, bands: seq<Band>,
                   bandpass: (real, real, seq<real>) -> seq<real>)
    returns (r: Result<seq<real>, ToneError>)
    requires LengthPreserving(bandpass)
    ensures r == FilterBank(signal, gain, 0.5 * (rate as real), bands, bandpass)
  {
    var filtered := new real[|signal|](_ => 0.0);
    var nyquist := 0.5 * (rate as real);
    assert bands[..0] == [];
    assert filtered[..] == Zeros(|signal|);
    for i := 0 to |bands|
      invariant FilterBank(signal, gain, nyquist, bands[..i], bandpass) == Ok(filtered[..])
    {
      var band := bands[i];
      assert bands[..i + 1][..i] == bands[..i] && bands[..i + 1][i] == band;
      var low := Max(band.low, 1.0);
      var high := Min(band.high, nyquist - 1.0);
      if nyquist == 0.0 {
        FilterBankErrorPersists(signal, gain, nyquist, bands, bandpass, i + 1);
        return Err(ZeroNyquist);
      }
      var lowCut := low / nyquist;
      var highCut := high / nyquist;
      if !(0.0 < lowCut < highCut < 1.0) {
        FilterBankErrorPersists(signal, gain, nyquist, bands, bandpass, i + 1);
        return Err(InvalidRange(band.name, lowCut, highCut));
      }
      var bandSignal := bandpass(lowCut, highCut, signal);
      if band.name !in gain {
        FilterBankErrorPersists(signal, gain, nyquist, bands, bandpass, i + 1);
        return Err(MissingGain(band.name));
      }
      assert |bandSignal| == filtered.Length;
      AddBand(filtered, bandSignal, gain[band.name]);
    }
    assert bands[..|bands|] == bands;
    r := Ok(filtered[..]);
  }

  /** filtered_signal += band_signal * g, in place. */
  method AddBand(filtered: array<real>, bandSignal: seq<real>, g: real)
    requires |bandSignal| == filtered.Length
    modifies filtered
    ensures filtered[..] == AddScaled(old(filtered[..]), bandSignal, g)
  {
    ghost var before := filtered[..];
    forall t | 0 <= t < filtered.Length {
      filtered[t] := filtered[t] + bandSignal[t] * g;
    }
    assert forall t :: 0 <= t < filtered.Length ==> filtered[..][t] == AddScaled(before, bandSignal, g)[t];
  }

  // ---------------------------------------------------------------------
  // The frame loop of dynamic_tone_control

  /** {band: 1.0 for band in bands} */
  function InitialGains(bands: seq<Band>): (gains: map<string, real>)
    ensures gains.Keys == NameSet(bands)
    ensures forall n :: n in gains ==> gains[n] == 1.0
  {
    map n | n in NameSet(bands) :: 1.0
  }

  /** Frame i of the schedule: signal[i * hop : i * hop + size], which lies inside the signal. */
  function FrameAt(signal: seq<real>, size: int, hop: int, i: nat): (frame: seq<real>)
    requires hop > 0 && size > 0 && i < FrameCount(|signal|, size, hop)
    ensures |frame| == size
  {
    FrameInside(|signal|, size, hop, i);
    signal[i * hop..i * hop + size]
  }

  /** The gains that would bring every band of a frame to the mean band energy. */
  function FrameTarget(frame: seq<real>, bands: seq<Band>, computeFft: seq<real> -> seq<Bin>)
    : (gains: map<string, real>)
    requires DistinctNames(bands)
    ensures gains.Keys == NameSet(bands)
  {
    var energy := EnergyTable(computeFft(frame), bands);
    EnergyTableSpec(computeFft(frame), bands);
    TargetGains(energy, MeanEnergy(energy, bands))
  }

  /** smoothed_gain after the first n frames. */
  function GainsAfter(signal: seq<real>, size: int, hop: int, bands: seq<Band>, alpha: real,
                      computeFft: seq<real> -> seq<Bin>, n: nat): (gains: map<string, real>)
    requires hop > 0 && size > 0 && DistinctNames(bands) && n <= FrameCount(|signal|, size, hop)
    ensures gains.Keys == NameSet(bands)
  {
    if n == 0 then InitialGains(bands)
    else
      Smoothed(GainsAfter(signal, size, hop, bands, alpha, computeFft, n - 1),
               FrameTarget(FrameAt(signal, size, hop, n - 1), bands, computeFft), alpha)
  }

  /** The parameters of one run of dynamic_tone_control that the frames depend on. */
  predicate Runnable(signal: seq<real>, size: int, hop: int, bands: seq<Band>)
  {
    hop > 0 && size > 0 && DistinctNames(bands)
  }

  /** What apply_gain returns for frame i, filtered with the gains after that frame. */
  function FrameOutcome(signal: seq<real>, rate: int, size: int, hop: int, bands: seq<Band>, alpha: real,
                        computeFft: seq<real> -> seq<Bin>, bandpass: (real, real, seq<real>) -> seq<real>, i: nat)
    : Result<seq<real>, ToneError>
    requires Runnable(signal, size, hop, bands) && LengthPreserving(bandpass)
    requires i < FrameCount(|signal|, size, hop)
  {
    FilterBank(FrameAt(signal, size, hop, i), GainsAfter(signal, size, hop, bands, alpha, computeFft, i + 1),
               0.5 * (rate as real), bands, bandpass)
  }

  /** adjusted_frame for frame i, once the band table is known to be valid. */
  function Adjusted(signal: seq<real>, rate: int, size: int, hop: int, bands: seq<Band>, alpha: real,
                    computeFft: seq<real> -> seq<Bin>, bandpass: (real, real, seq<real>) -> seq<real>, i: nat)
    : (adjusted: seq<real>)
    requires Runnable(signal, size, hop, bands) && LengthPreserving(bandpass)
    requires FirstInvalid(bands, 0.5 * (rate as real)).None? && i < FrameCount(|signal|, size, hop)
    ensures |adjusted| == size
  {
    FilterBankOutcome(FrameAt(signal, size, hop, i), GainsAfter(signal, size, hop, bands, alpha, computeFft, i + 1),
                      0.5 * (rate as real), bands, bandpass);
    FrameOutcome(signal, rate, size, hop, bands, alpha, computeFft, bandpass, i).value
  }

  function AdjustedFrames(signal: seq<real>, rate: int, size: int, hop: int, bands: seq<Band>, alpha: real,
                          computeFft: seq<real> -> seq<Bin>, bandpass: (real, real, seq<real>) -> seq<real>)
    : (frames: seq<seq<real>>)
    requires Runnable(signal, size, hop, bands) && LengthPreserving(bandpass)
    requires FirstInvalid(bands, 0.5 * (rate as real)).None?
    ensures |frames| == FrameCount(|signal|, size, hop)
  {
    seq(FrameCount(|signal|, size, hop),
        i requires 0 <= i < FrameCount(|signal|, size, hop) =>
          Adjusted(signal, rate, size, hop, bands, alpha, computeFft, bandpass, i))
  }

  /**
   * The filtered frames the loop adds in; when a band is invalid no frame is
   * ever added, and the frames are left empty.
   */
  function ScheduledFrames(signal: seq<real>, rate: int, size: int, hop: int, bands: seq<Band>, alpha: real,
                           computeFft: seq<real> -> seq<Bin>, bandpass: (real, real, seq<real>) -> seq<real>)
    : (frames: seq<seq<real>>)
    requires Runnable(signal, size, hop, bands) && LengthPreserving(bandpass)
    ensures |frames| == FrameCount(|signal|, size, hop)
  {
    if FirstInvalid(bands, 0.5 * (rate as real)).None? then
      AdjustedFrames(signal, rate, size, hop, bands, alpha, computeFft, bandpass)
    else seq(FrameCount(|signal|, size, hop), i => [])
  }

  /** output_signal after the first n frames have been added in. */
  function OutputAfter(signal: seq<real>, rate: int, size: int, hop: int, bands: seq<Band>, alpha: real,
                       computeFft: seq<real> -> seq<Bin>, bandpass: (real, real, seq<real>) -> seq<real>, n: nat)
    : (output: seq<real>)
    requires Runnable(signal, size, hop, bands) && LengthPreserving(bandpass)
    requires n <= FrameCount(|signal|, size, hop)
    ensures |output| == |signal|
  {
    var count := FrameCount(|signal|, size, hop);
    Sums(ScheduledFrames(signal, rate, size, hop, bands, alpha, computeFft, bandpass), Starts(count, hop), |signal|, n)
  }

  /**
   * What dynamic_tone_control returns for a positive hop: zeros when no
   * frame fits; otherwise the error of the first invalid band, or the
   * overlap-add of the filtered frames, frame i at i * hop.
   */
  function ToneOutput(signal: seq<real>, rate: int, size: int, hop: int, bands: seq<Band>, alpha: real,
                      computeFft: seq<real> -> seq<Bin>, bandpass: (real, real, seq<real>) -> seq<real>)
    : Result<seq<real>, ToneError>
    requires Runnable(signal, size, hop, bands) && LengthPreserving(bandpass)
  {
    var count := FrameCount(|signal|, size, hop);
    if count == 0 then Ok(Zeros(|signal|))
    else
      match FirstInvalid(bands, 0.5 * (rate as real))
      case Some(e) => Err(e)
      case None => Ok(OutputAfter(signal, rate, size, hop, bands, alpha, computeFft, bandpass, count))
  }

  /**
   * dynamic_tone_control: for each frame of the schedule, the band energies
   * give target gains, which are smoothed into the running gains; the frame
   * is filtered with them and added into the output at its start.
   */
  method DynamicToneControl(signal: seq<real>, rate: int, bands: seq<Band>, size: int, hop: int, alpha: real,
                            computeFft: seq<real> -> seq<Bin>, bandpass: (real, real, seq<real>) -> seq<real>)
    returns (r: Result<seq<real>, ToneError>)
    requires DistinctNames(bands) && LengthPreserving(bandpass) && size > 0 && hop >= 0
    ensures hop == 0 ==> r == Err(ZeroHop)
    ensures hop > 0 ==> r == ToneOutput(signal, rate, size, hop, bands, alpha, computeFft, bandpass)
  {
    if hop == 0 {
      return Err(ZeroHop);
    }
    var count := FrameCount(|signal|, size, hop);
    var smoothed := InitialGains(bands);
    var output := new real[|signal|](_ => 0.0);
    assert output[..] == OutputAfter(signal, rate, size, hop, bands, alpha, computeFft, bandpass, 0);
    for i := 0 to count
      invariant smoothed == GainsAfter(signal, size, hop, bands, alpha, computeFft, i)
      invariant i > 0 ==> FirstInvalid(bands, 0.5 * (rate as real)).None?
      invariant output[..] == OutputAfter(signal, rate, size, hop, bands, alpha, computeFft, bandpass, i)
    {
      var failure;
      failure, smoothed := ToneFrame(signal, rate, bands, size, hop, alpha, computeFft, bandpass, output, smoothed, i);
      if failure.Some? {
        return Err(failure.value);
      }
    }
    if count == 0 {
      assert output[..] == Zeros(|signal|);
    }
    r := Ok(output[..]);
  }

  /**
   * Pass i of the frame loop: the band energies of frame i give the target
   * gains, the running gains are smoothed towards them, and the frame
   * filtered with the new gains is added into the output from i * hop on. It
   * reports the error of apply_gain instead when there is one.
   */
  method ToneFrame(signal: seq<real>, rate: int, bands: seq<Band>, size: int, hop: int, alpha: real,
                   computeFft: seq<real> -> seq<Bin>, bandpass: (real, real, seq<real>) -> seq<real>,
                   output: array<real>, smoothed: map<string, real>, i: nat)
    returns (failure: Option<ToneError>, next: map<string, real>)
    requires Runnable(signal, size, hop, bands) && LengthPreserving(bandpass)
    requires i < FrameCount(|signal|, size, hop) && output.Length == |signal|
    requires smoothed == GainsAfter(signal, size, hop, bands, alpha, computeFft, i)
    requires output[..] == OutputAfter(signal, rate, size, hop, bands, alpha, computeFft, bandpass, i)
    modifies output
    ensures failure.Some? <==> FirstInvalid(bands, 0.5 * (rate as real)).Some?
    ensures failure.Some? ==> failure.value == FirstInvalid(bands, 0.5 * (rate as real)).value
    ensures failure.None? ==>
              next == GainsAfter(signal, size, hop, bands, alpha, computeFft, i + 1) &&
              output[..] == OutputAfter(signal, rate, size, hop, bands, alpha, computeFft, bandpass, i + 1)
  {
    var adjusted;
    adjusted, next := FrameStep(signal, rate, bands, size, hop, alpha, computeFft, bandpass, smoothed, i);
    FilterBankOutcome(FrameAt(signal, size, hop, i), next, 0.5 * (rate as real), bands, bandpass);
    if adjusted.Err? {
      return Some(adjusted.error), next;
    }
    FrameInside(|signal|, size, hop, i);
    var start := i * hop;
    ghost var frames := ScheduledFrames(signal, rate, size, hop, bands, alpha, computeFft, bandpass);
    ghost var starts := Starts(FrameCount(|signal|, size, hop), hop);
    ScheduledFrameAt(signal, rate, size, hop, bands, alpha, computeFft, bandpass, i);
    assert starts[i] == start;
    ExtendSums(output, adjusted.value, start, frames, starts, i);
    failure := None;
  }

  /**
   * The work of pass i that does not touch the output: frame i's band
   * energies, the target and smoothed gains, and apply_gain on the frame.
   */
  method FrameStep(signal: seq<real>, rate: int, bands: seq<Band>, size: int, hop: int, alpha: real,
                   computeFft: seq<real> -> seq<Bin>, bandpass: (real, real, seq<real>) -> seq<real>,
                   smoothed: map<string, real>, i: nat)
    returns (adjusted: Result<seq<real>, ToneError>, next: map<string, real>)
    requires Runnable(signal, size, hop, bands) && LengthPreserving(bandpass)
    requires i < FrameCount(|signal|, size, hop)
    requires smoothed == GainsAfter(signal, size, hop, bands, alpha, computeFft, i)
    ensures next == GainsAfter(signal, size, hop, bands, alpha, computeFft, i + 1)
    ensures adjusted == FrameOutcome(signal, rate, size, hop, bands, alpha, computeFft, bandpass, i)
  {
    FrameInside(|signal|, size, hop, i);
    var start := i * hop;
    var frame := signal[start..start + size];
    assert frame == FrameAt(signal, size, hop, i);
    var energy := CalculateBandEnergy(frame, bands, computeFft);
    EnergyTableSpec(computeFft(frame), bands);
    var average := MeanEnergy(energy, bands);
    var current := TargetGains(energy, average);
    var smoothing := SmoothGain(smoothed, current, alpha);
    next := smoothing.value;
    assert next == GainsAfter(signal, size, hop, bands, alpha, computeFft, i + 1);
    adjusted := ApplyGain(frame, next, rate, bands, bandpass);
  }

  /** Once every band is valid, the scheduled frame i is the adjusted frame i. */
  lemma ScheduledFrameAt(signal: seq<real>, rate: int, size: int, hop: int, bands: seq<Band>, alpha: real,
                         computeFft: seq<real> -> seq<Bin>, bandpass: (real, real, seq<real>) -> seq<real>, i: nat)
    requires Runnable(signal, size, hop, bands) && LengthPreserving(bandpass)
    requires i < FrameCount(|signal|, size, hop)
    requires FrameOutcome(signal, rate, size, hop, bands, alpha, computeFft, bandpass, i).Ok?
    ensures FirstInvalid(bands, 0.5 * (rate as real)).None?
    ensures ScheduledFrames(signal, rate, size, hop, bands, alpha, computeFft, bandpass)[i] ==
            FrameOutcome(signal, rate, size, hop, bands, alpha, computeFft, bandpass, i).value
  {
    FilterBankOutcome(FrameAt(signal, size, hop, i), GainsAfter(signal, size, hop, bands, alpha, computeFft, i + 1),
                      0.5 * (rate as real), bands, bandpass);
  }

  /**
   * The run fails exactly when some frame is processed and some band's range
   * is invalid; otherwise the output has the signal's length.
   */
  lemma ToneOutputOutcome(signal: seq<real>, rate: int, size: int, hop: int, bands: seq<Band>,
                          alpha: real, computeFft: seq<real> -> seq<Bin>,
                          bandpass: (real, real, seq<real>) -> seq<real>)
    requires Runnable(signal, size, hop, bands) && LengthPreserving(bandpass)
    ensures var r := ToneOutput(signal, rate, size, hop, bands, alpha, computeFft, bandpass);
            (r.Err? <==> FrameCount(|signal|, size, hop) > 0 &&
                         exists i :: 0 <= i < |bands| && BandCuts(bands[i], 0.5 * (rate as real)).Err?) &&
            (r.Ok? ==> |r.value| == |signal|)
  {
    FirstInvalidSpec(bands, 0.5 * (rate as real));
  }

  /** A sample that no frame of the schedule covers stays 0 in the output. */
  lemma ToneOutputUncovered(signal: seq<real>, rate: int, size: int, hop: int, bands: seq<Band>,
                            alpha: real, computeFft: seq<real> -> seq<Bin>,
                            bandpass: (real, real, seq<real>) -> seq<real>, t: nat)
    requires Runnable(signal, size, hop, bands) && LengthPreserving(bandpass)
    requires ToneOutput(signal, rate, size, hop, bands, alpha, computeFft, bandpass).Ok? && t < |signal|
    requires forall i :: 0 <= i < FrameCount(|signal|, size, hop) ==> !(i * hop <= t < i * hop + size)
    ensures ToneOutput(signal, rate, size, hop, bands, alpha, computeFft, bandpass).value[t] == 0.0
  {
    var count := FrameCount(|signal|, size, hop);
    if count > 0 {
      var frames := ScheduledFrames(signal, rate, size, hop, bands, alpha, computeFft, bandpass);
      OverlapSumOutside(frames, Starts(count, hop), t, count);
    }
  }

  /** The first invalid band exists exactly when some band is invalid. */
  lemma {:induction false} FirstInvalidSpec(bands: seq<Band>, nyquist: real)
    ensures FirstInvalid(bands, nyquist).Some? <==> exists i :: 0 <= i < |bands| && BandCuts(bands[i], nyquist).Err?
  {
    if |bands| > 0 {
      var init := bands[..|bands| - 1];
      FirstInvalidSpec(init, nyquist);
      if FirstInvalid(init, nyquist).Some? {
        var i :| 0 <= i < |init| && BandCuts(init[i], nyquist).Err?;
        assert init[i] == bands[i];
      } else if exists i :: 0 <= i < |bands| && BandCuts(bands[i], nyquist).Err? {
        var i :| 0 <= i < |bands| && BandCuts(bands[i], nyquist).Err?;
        if i < |init| {
          assert init[i] == bands[i];
        }
      }
    }
  }
}
