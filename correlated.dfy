/** The draft correlated self-veto calculator of correlated_selfveto.py: unit constants,
    the meson and material tables, the lower-bound grid search, the kinematic edge of a
    two-body meson decay, the name guards of the probability factors, and the calculator
    object whose solver run and relative meson contributions change as it is used.
    Exponentials, logarithms, interpolants and the triple integral stay symbolic or are
    passed in. */
module CorrelatedSelfVeto {
  import opened Common

  // ---------------------------------------------------------------------------
  // Units and tables

  /** `Units`: natural units with energies in GeV. */
  const Km: real := 5.0677309374099995
  const Cm: real := Km * 0.00001
  const M: real := Km * 0.001
  const Sec: real := 1523000.0
  const GeV: real := 1.0
  const TeV: real := 1000.0 * GeV

  /** `ParticleProperties.r_dict`: the squared muon-to-meson mass ratio of each meson. */
  const RDict: map<string, real> := map["kaon" := 0.046, "pion" := 0.573]

  /** `ParticleProperties.mass_dict`, in GeV. */
  const MassDict: map<string, real> := map["kaon" := 0.493677 * GeV, "pion" := 0.139570 * GeV]

  /** `ParticleProperties.lifetime_dict`, seconds converted to inverse GeV. */
  const LifetimeDict: map<string, real> := map["kaon" := 0.000000012389 * Sec, "pion" := 0.000000026033 * Sec]

  /** `MaterialProperties.a`: continuous muon energy loss, in GeV per metre water equivalent. */
  const MaterialA: map<string, real> := map["ice" := 0.249 * GeV / M, "rock" := 0.221 * GeV / M]

  /** `MaterialProperties.b`: stochastic muon energy loss, per metre water equivalent. */
  const MaterialB: map<string, real> := map["ice" := 0.000422 / M, "rock" := 0.000531 / M]

  /** `meson_list` */
  const MesonList: seq<string> := ["kaon", "pion"]

  /** The meson tables describe the same mesons, the material tables the same media, and
      every mass ratio lies strictly between 0 and 1, every mass and lifetime is positive,
      and every energy-loss coefficient is positive. */
  lemma TablesConsistent()
    ensures RDict.Keys == MassDict.Keys == LifetimeDict.Keys == {"kaon", "pion"}
    ensures forall m :: m in MesonList <==> m in RDict
    ensures forall m :: m in RDict ==> 0.0 < RDict[m] < 1.0 && 0.0 < MassDict[m] && 0.0 < LifetimeDict[m]
    ensures MaterialA.Keys == MaterialB.Keys == {"ice", "rock"}
    ensures forall x :: x in MaterialA ==> 0.0 < MaterialA[x] && 0.0 < MaterialB[x]
  {
    assert MesonList[0] == "kaon" && MesonList[1] == "pion";
  }

  // ---------------------------------------------------------------------------
  // FindNearest

  ghost predicate Sorted(a: seq<real>)
  {
    forall i, j :: 0 <= i < j < |a| ==> a[i] <= a[j]
  }

  /** `FindNearest(array, value)`, numpy's `searchsorted(array, value, side="left")` on a
      sorted array: the first position at which `value` could be inserted keeping the
      order, which is `|a|` when every entry is below `value`. */
  function FindNearest(a: seq<real>, v: real): (i: nat)
    requires Sorted(a)
    ensures i <= |a|
    ensures forall j :: 0 <= j < i ==> a[j] < v
    ensures forall j :: i <= j < |a| ==> a[j] >= v
    decreases |a|
  {
    if |a| == 0 || a[0] >= v then 0
    else 1 + FindNearest(a[1..], v)
  }

  /** The insertion point is the only position that splits the array into entries
      below `value` and entries at or above it. */
  lemma FindNearestUnique(a: seq<real>, v: real, i: nat)
    requires Sorted(a) && i <= |a|
    requires forall j :: 0 <= j < i ==> a[j] < v
    requires forall j :: i <= j < |a| ==> a[j] >= v
    ensures i == FindNearest(a, v)
  {
    var k := FindNearest(a, v);
    assert i < |a| ==> a[i] >= v;
    assert k < |a| ==> a[k] >= v;
  }

  /** For a value above every grid point the insertion point is one past the end, so
      indexing with it raises IndexError. */
  lemma FindNearestPastEnd(a: seq<real>, v: real)
    requires Sorted(a)
    ensures FindNearest(a, v) == |a| <==> forall j :: 0 <= j < |a| ==> a[j] < v
  {
    if FindNearest(a, v) < |a| {
      assert a[FindNearest(a, v)] >= v;
    }
  }

  // ---------------------------------------------------------------------------
  // Kinematic edges

  /** `MinimumMuonBrotherEnergy(neutrino_energy, meson)`: the smallest energy of the
      muon that accompanies a neutrino of energy `E` from the decay of `meson`,
      `E r / (1 - r)`; an unknown meson raises. */
  function MinimumMuonBrotherEnergy(E: real, meson: string): (r: Result<real>)
    ensures r.Ok? <==> meson in RDict
    ensures r.Err? ==> r.error == Raised("Meson not found in mass dictionary.")
    ensures r.Ok? ==> r.value * (1.0 - RDict[meson]) == E * RDict[meson]
    ensures r.Ok? && E >= 0.0 ==> r.value >= 0.0
  {
    if meson !in RDict then Err(Raised("Meson not found in mass dictionary."))
    else
      var rr := RDict[meson];
      Ok(E * rr / (1.0 - rr))
  }

  /** `MinimumMesonParentEnergy` as written: its guard tests membership in a bare
      `r_dict`, a name defined nowhere in the module (the table is
      `self.ParticleProperties.r_dict`), so every call raises NameError before the
      formula is reached. */
  function MinimumMesonParentEnergyAsWritten(E: real, meson: string): (r: Result<real>)
    ensures r.Err? && r.error.NameError?
  {
    Err(NameError("r_dict"))
  }

  /** The discrepancy: for a known meson the brother-muon edge is defined, yet the
      parent edge as written raises. */
  lemma ParentEnergyAsWrittenRaises(E: real)
    ensures MinimumMuonBrotherEnergy(E, "kaon").Ok?
    ensures MinimumMesonParentEnergyAsWritten(E, "kaon") == Err(NameError("r_dict"))
  {
  }

  /** `MinimumMesonParentEnergy` as evidently intended: the same guard as
      `MinimumMuonBrotherEnergy` on the class's table, then `E / (1 - r)`. */
  function MinimumMesonParentEnergy(E: real, meson: string): (r: Result<real>)
    ensures r.Ok? <==> meson in RDict
    ensures r.Err? ==> r.error == Raised("Meson not found in mass dictionary.")
    ensures r.Ok? ==> r.value * (1.0 - RDict[meson]) == E
  {
    if meson !in RDict then Err(Raised("Meson not found in mass dictionary."))
    else
      var rr := RDict[meson];
      Ok(E / (1.0 - rr))
  }

  /** Energy balance of the two-body decay at threshold: the minimum parent energy is the
      neutrino energy plus the minimum brother-muon energy, and so never below either. */
  lemma ParentEnergyIsNeutrinoPlusBrother(E: real, meson: string)
    ensures MinimumMesonParentEnergy(E, meson).Ok? <==> MinimumMuonBrotherEnergy(E, meson).Ok?
    ensures MinimumMesonParentEnergy(E, meson).Ok? ==>
              MinimumMesonParentEnergy(E, meson).value == E + MinimumMuonBrotherEnergy(E, meson).value
    ensures MinimumMesonParentEnergy(E, meson).Ok? && E >= 0.0 ==>
              MinimumMesonParentEnergy(E, meson).value >= E
  {
    if meson in RDict {
      var rr := RDict[meson];
      assert 1.0 - rr != 0.0;
      assert E / (1.0 - rr) == E + E * rr / (1.0 - rr) by {
        assert E + E * rr / (1.0 - rr) == (E * (1.0 - rr) + E * rr) / (1.0 - rr);
      }
    }
  }

  // ---------------------------------------------------------------------------
  // Probability factors

  /** A probability written `exp(exponent)`; numpy's `exp` is not evaluated, and a
      non-finite exponent stands for numpy's infinite or NaN argument. */
  datatype ExpProb = ExpOf(exponent: Float)

  /** `DecayProbability(primary_energy, distance, meson)`: the probability that the meson
      survives `distance` undecayed, `exp(-distance / (boost * lifetime))` with boost
      `E / mass`. An unknown meson raises; a zero energy gives a zero boost and Python
      raises ZeroDivisionError. */
  function DecayProbability(E: real, distance: real, meson: string): (r: Result<ExpProb>)
    ensures r.Ok? <==> meson in RDict && E != 0.0
    ensures meson !in RDict ==> r == Err(Raised("Meson not found lifetime dictionary."))
    ensures meson in RDict && E == 0.0 ==> r == Err(ZeroDivisionError)
  {
    if meson !in RDict then Err(Raised("Meson not found lifetime dictionary."))
    else
      TablesConsistent();
      var boost := E / MassDict[meson];
      if boost * LifetimeDict[meson] == 0.0 then Err(ZeroDivisionError)
      else Ok(ExpOf(Num(-distance / (boost * LifetimeDict[meson]))))
  }

  /** For a positive energy the decay exponent is `-distance * mass / (E * lifetime)`:
      at most zero for a non-negative distance, and smaller the longer the distance or
      the smaller the energy, so the survival probability never exceeds one and falls
      with distance. */
  lemma DecayProbabilityBounds(E: real, d1: real, d2: real, meson: string)
    requires meson in RDict && E > 0.0 && 0.0 <= d1 <= d2
    ensures DecayProbability(E, d1, meson).Ok? && DecayProbability(E, d2, meson).Ok?
    ensures DecayProbability(E, d1, meson).value.exponent.Num? && DecayProbability(E, d2, meson).value.exponent.Num?
    ensures DecayProbability(E, d1, meson).value.exponent.v <= 0.0
    ensures DecayProbability(E, d2, meson).value.exponent.v <= DecayProbability(E, d1, meson).value.exponent.v
  {
    TablesConsistent();
    var c := E / MassDict[meson] * LifetimeDict[meson];
    assert c > 0.0;
    assert d1 / c <= d2 / c;
  }

  /** `NoInteractionProbability(primary_energy, column_density, meson)`, with the meson's
      interpolated air cross-section `xs` in cm2 passed in: an unknown meson raises;
      otherwise the exponent `-column_density / (xs * cm^2) / mass`. The interpolant
      returns a numpy value, so a zero cross-section gives a non-finite exponent rather
      than an exception. */
  function NoInteractionProbability(E: real, columnDensity: real, meson: string, xs: real): (r: Result<ExpProb>)
    ensures r.Ok? <==> meson in RDict
    ensures meson !in RDict ==> r == Err(Raised("Meson not found cross section dictionary."))
    ensures r.Ok? ==> (r.value.exponent.Num? <==> xs != 0.0)
    ensures r.Ok? && columnDensity >= 0.0 && xs > 0.0 ==> r.value.exponent.v <= 0.0
  {
    if meson !in RDict then Err(Raised("Meson not found cross section dictionary."))
    else
      TablesConsistent();
      var q := Divide(-columnDensity, xs * Cm * Cm);
      Ok(ExpOf(if q.Num? then Num(q.v / MassDict[meson]) else NonFinite))
  }

  /** A distance written `log(numer / denom) / b`; numpy's `log` is not evaluated. */
  datatype Distance = Zero | LogRatio(numer: real, denom: real, b: real)

  /** `MeanMuonDistance(muon_energy, medium, min_muon_energy)`: zero below the threshold
      energy, whatever the medium; otherwise the medium must be in both loss tables, and
      the range is `log((a + E b) / (a + E_min b)) / b`. A zero `a + E_min b` raises
      ZeroDivisionError. */
  function MeanMuonDistance(E: real, medium: string, minE: real): (r: Result<Distance>)
    ensures E < minE ==> r == Ok(Zero)
    ensures E >= minE ==>
              (r.Ok? <==> (medium in MaterialA && medium in MaterialB
                           && MaterialA[medium] + minE * MaterialB[medium] != 0.0))
    ensures E >= minE && (medium !in MaterialA || medium !in MaterialB) ==>
              r == Err(Raised("Medium energy losses for muons not found."))
  {
    if E < minE then Ok(Zero)
    else if medium !in MaterialA || medium !in MaterialB then Err(Raised("Medium energy losses for muons not found."))
    else
      var a := MaterialA[medium];
      var b := MaterialB[medium];
      if a + minE * b == 0.0 then Err(ZeroDivisionError)
      else Ok(LogRatio(a + E * b, a + minE * b, b))
  }

  /** In a known medium and from a non-negative threshold up, the range is defined and
      its logarithm's argument is at least one, so the range is never negative. */
  lemma MeanMuonDistanceNonNegative(E: real, medium: string, minE: real)
    requires medium in MaterialA && 0.0 <= minE <= E
    ensures MeanMuonDistance(E, medium, minE).Ok?
    ensures MeanMuonDistance(E, medium, minE).value.LogRatio?
    ensures var d := MeanMuonDistance(E, medium, minE).value;
            d.numer >= d.denom > 0.0 && d.b > 0.0
  {
    TablesConsistent();
    var a := MaterialA[medium];
    var b := MaterialB[medium];
    assert minE * b <= E * b;
    assert minE * b >= 0.0;
  }

  // ---------------------------------------------------------------------------
  // The calculator and its solver run

  /** What the calculator reads from an MCEq run solved on a depth grid: the largest
      slant depth, the solver's energy grid, the cross-section energy grid, height to
      slant depth, and `get_solution(name, 0, grid_idx=i)`. */
  datatype Solver = Solver(
    maxX: real,
    egrid: seq<real>,
    csEgrid: seq<real>,
    heightToX: real -> real,
    solution: (string, int) -> seq<real>)

  /** The grids are increasing and every solution lives on the energy grid. */
  ghost predicate SolverOk(s: Solver)
  {
    && s.maxX > 0.0
    && Sorted(s.csEgrid)
    && forall name, i :: |s.solution(name, i)| == |s.egrid|
  }

  /** The `k`-th point of an arange. */
  function ArangePoint(start: real, step: real, k: int): real
  {
    start + (k as real) * step
  }

  /** numpy's `arange(start, stop, step)` for a positive step: `start + k step` for
      every `k` that keeps it below `stop`. */
  function Arange(start: real, stop: real, step: real): (xs: seq<real>)
    requires step > 0.0
    ensures forall k :: 0 <= k < |xs| ==> xs[k] == ArangePoint(start, step, k)
    ensures forall k :: 0 <= k < |xs| ==> start <= xs[k] < stop
    ensures ArangePoint(start, step, |xs|) >= stop
  {
    var q := (stop - start) / step;
    var n: nat := if q <= 0.0 then 0 else -((-q).Floor);
    ArangeBounds(start, stop, step, n);
    seq(n, k requires 0 <= k < n => ArangePoint(start, step, k))
  }

  lemma ArangeBounds(start: real, stop: real, step: real, n: int)
    requires step > 0.0
    requires n == if (stop - start) / step <= 0.0 then 0 else -((-((stop - start) / step)).Floor)
    ensures forall k :: 0 <= k < n ==> start <= ArangePoint(start, step, k) < stop
    ensures ArangePoint(start, step, n) >= stop
  {
    var q := (stop - start) / step;
    assert q * step == stop - start;
    if q > 0.0 {
      assert (n as real) >= q;
      forall k | 0 <= k < n ensures start <= ArangePoint(start, step, k) < stop {
        assert (k as real) < q;
        assert (k as real) * step < q * step;
        assert 0.0 <= (k as real) * step;
      }
      assert (n as real) * step >= q * step;
    } else {
      assert 0.0 >= q * step;
    }
  }

  /** An arange with a positive step is strictly increasing. */
  lemma ArangeSorted(start: real, stop: real, step: real)
    requires step > 0.0
    ensures Sorted(Arange(start, stop, step))
  {
    var xs := Arange(start, stop, step);
    forall i, j | 0 <= i < j < |xs| ensures xs[i] <= xs[j] {
      assert xs[i] == ArangePoint(start, step, i) && xs[j] == ArangePoint(start, step, j);
      assert ArangePoint(start, step, j) - ArangePoint(start, step, i) == ((j - i) as real) * step;
      assert ((j - i) as real) * step > 0.0;
    }
  }

  /** The integration box of `CorrelatedProbability` for one meson: heights and
      distances from 0 to 40 km, companion-muon energies from the kinematic edge up to
      10^10 GeV. */
  datatype Box = Box(hMin: real, hMax: real, eMin: real, eMax: real, xMin: real, xMax: real)

  /** `CorrelatedSelfVetoProbabilityCalculator` */
  class CorrelatedCalculator {
    const hadronicModel: string
    const primaryModel: (string, string)
    /** `mceq_run`, present once `RunMCLayeredMode` has run. */
    var run: Option<Solver>
    /** `Xvec` */
    var xvec: seq<real>
    /** `pion_prob` and `kaon_prob` */
    var pionProb: seq<Float>
    var kaonProb: seq<Float>

    ghost predicate Valid()
      reads this
    {
      && (run.Some? ==> SolverOk(run.value))
      && Sorted(xvec)
    }

    constructor (hadronicModel: string, primaryModel: (string, string))
      ensures Valid()
      ensures this.hadronicModel == hadronicModel && this.primaryModel == primaryModel
      ensures run.None? && xvec == [] && pionProb == [] && kaonProb == []
    {
      this.hadronicModel := hadronicModel;
      this.primaryModel := primaryModel;
      run := None;
      xvec := [];
      pionProb := [];
      kaonProb := [];
    }

    /** `RunMCLayeredMode(costh, number_of_layers)`: keeps the solver run built for the
        zenith angle and the depth grid `arange(1, max_X, max_X / number_of_layers)`
        it was solved on; the relative contributions are untouched. */
    method RunMCLayeredMode(solver: Solver, layers: nat)
      requires Valid() && SolverOk(solver) && layers > 0
      modifies this
      ensures Valid()
      ensures run == Some(solver)
      ensures xvec == Arange(1.0, solver.maxX, solver.maxX / (layers as real))
      ensures pionProb == old(pionProb) && kaonProb == old(kaonProb)
    {
      run := Some(solver);
      xvec := Arange(1.0, solver.maxX, solver.maxX / (layers as real));
      ArangeSorted(1.0, solver.maxX, solver.maxX / (layers as real));
    }

    /** The depth index `UpdateRelativeContributions(height)` reads the solution at. */
    function DepthIndex(height: real): (idx: nat)
      reads this
      requires Valid() && run.Some?
      ensures idx <= |xvec|
    {
      FindNearest(xvec, run.value.heightToX(height))
    }

    /** `UpdateRelativeContributions(height)`: the pion and kaon fluxes from the
        solutions at the depth nearest to `height`, divided elementwise by the total
        muon-neutrino flux at the first depth sample (`grid_idx=0`, X = 1 g/cm2); a
        zero total gives a non-finite share. */
    method UpdateRelativeContributions(height: real)
      requires Valid() && run.Some?
      modifies this
      ensures Valid() && run == old(run) && xvec == old(xvec)
      ensures var s := run.value;
              var idx := FindNearest(xvec, s.heightToX(height));
              pionProb == DivideAll(s.solution("pi_numu", idx), s.solution("total_numu", 0))
              && kaonProb == DivideAll(s.solution("k_numu", idx), s.solution("total_numu", 0))
      ensures |pionProb| == |kaonProb| == |run.value.egrid|
    {
      var s := run.value;
      var idx := DepthIndex(height);
      var total := s.solution("total_numu", 0);
      pionProb := DivideAll(s.solution("pi_numu", idx), total);
      kaonProb := DivideAll(s.solution("k_numu", idx), total);
    }

    /** `NeutrinoFromParentProbability(neutrino_energy, costh, h, meson)`: refreshes the
        relative contributions for height `h`, then reads the chosen meson's share at
        the cross-section grid point found for the neutrino energy. The refresh happens
        even when the meson is then rejected; an energy above every grid point indexes
        past the end and raises IndexError. */
    method NeutrinoFromParentProbability(E: real, h: real, meson: string) returns (r: Result<Float>)
      requires Valid() && run.Some?
      modifies this
      ensures Valid() && run == old(run) && xvec == old(xvec)
      ensures var s := run.value;
              var idx := FindNearest(xvec, s.heightToX(h));
              pionProb == DivideAll(s.solution("pi_numu", idx), s.solution("total_numu", 0))
              && kaonProb == DivideAll(s.solution("k_numu", idx), s.solution("total_numu", 0))
      ensures r == MesonShare(pionProb, kaonProb, FindNearest(run.value.csEgrid, E / GeV), meson)
    {
      UpdateRelativeContributions(h);
      var ie := FindNearest(run.value.csEgrid, E / GeV);
      if meson == "pion" {
        r := if ie < |pionProb| then Ok(pionProb[ie]) else Err(IndexError);
      } else if meson == "kaon" {
        r := if ie < |kaonProb| then Ok(kaonProb[ie]) else Err(IndexError);
      } else {
        r := Err(Raised("Invalid meson parent"));
      }
    }

    /** `ParentProductionProbability(primary_energy, costh, h, meson)`: the flux of
        the negative pion or kaon at the first depth sample (`grid_idx=0`, X = 1 g/cm2),
        at the cross-section grid point found for the energy; any other meson raises. */
    function ParentProductionProbability(E: real, meson: string): (r: Result<real>)
      reads this
      requires Valid() && run.Some?
      ensures r.Ok? <==> (meson == "pion" || meson == "kaon")
                         && FindNearest(run.value.csEgrid, E / GeV) < |run.value.egrid|
      ensures meson != "pion" && meson != "kaon" ==> r == Err(Raised("Invalid meson. "))
      ensures r.Ok? ==> r.value == run.value.solution(if meson == "pion" then "pi-" else "K-", 0)[FindNearest(run.value.csEgrid, E / GeV)]
    {
      var s := run.value;
      var ie := FindNearest(s.csEgrid, E / GeV);
      if meson == "pion" then PyAt(s.solution("pi-", 0), ie)
      else if meson == "kaon" then PyAt(s.solution("K-", 0), ie)
      else Err(Raised("Invalid meson. "))
    }

    /** `CorrelatedProbability(Enu, costh)`: runs the solver for the zenith angle, then
        adds, over `meson_list` in order, the triple integral `tplquad` returns for the
        meson's decay kernel over its box, value and error estimate alike. */
    method CorrelatedProbability(Enu: real, solver: Solver,
                                 tplquad: (string, real, Box) -> (real, real)) returns (cprob: (real, real))
      requires Valid() && SolverOk(solver)
      modifies this
      ensures Valid() && run == Some(solver)
      ensures xvec == Arange(1.0, solver.maxX, solver.maxX / 100.0)
      ensures pionProb == old(pionProb) && kaonProb == old(kaonProb)
      ensures cprob == QuadSum(MesonList, Enu, tplquad)
    {
      RunMCLayeredMode(solver, 100);
      cprob := (0.0, 0.0);
      for i := 0 to |MesonList|
        invariant cprob == QuadSum(MesonList[..i], Enu, tplquad)
        invariant pionProb == old(pionProb) && kaonProb == old(kaonProb)
      {
        var meson := MesonList[i];
        var rr := RDict[meson];
        var box := Box(0.0, 40.0 * Km, Enu * rr / (1.0 - rr), 10000000000.0 * GeV, 0.0, 40.0 * Km);
        assert box == IntegrationBox(Enu, meson);
        var (value, error) := tplquad(meson, Enu, box);
        assert MesonList[..i + 1][..i] == MesonList[..i];
        cprob := (cprob.0 + value, cprob.1 + error);
      }
      assert MesonList[..|MesonList|] == MesonList;
    }
  }

  /** Python's `xs[i]` for an index that is never negative. */
  function PyAt<T>(xs: seq<T>, i: nat): (r: Result<T>)
    ensures r.Ok? <==> i < |xs|
    ensures r.Ok? ==> r.value == xs[i]
  {
    if i < |xs| then Ok(xs[i]) else Err(IndexError)
  }

  /** The meson dispatch of `NeutrinoFromParentProbability` at grid point `ie`. */
  function MesonShare(pionProb: seq<Float>, kaonProb: seq<Float>, ie: nat, meson: string): (r: Result<Float>)
    ensures r.Ok? <==> (meson == "pion" && ie < |pionProb|) || (meson == "kaon" && ie < |kaonProb|)
    ensures meson != "pion" && meson != "kaon" ==> r == Err(Raised("Invalid meson parent"))
  {
    if meson == "pion" then PyAt(pionProb, ie)
    else if meson == "kaon" then PyAt(kaonProb, ie)
    else Err(Raised("Invalid meson parent"))
  }

  /** An energy above every cross-section grid point is inserted past the end of the
      grid; when the solver's grid is no longer than it, both meson lookups of
      `NeutrinoFromParentProbability` then raise IndexError. */
  lemma ShareAboveGridRaises(csEgrid: seq<real>, pionProb: seq<Float>, kaonProb: seq<Float>, E: real, meson: string)
    requires Sorted(csEgrid) && |pionProb| <= |csEgrid| && |kaonProb| <= |csEgrid|
    requires forall j :: 0 <= j < |csEgrid| ==> csEgrid[j] < E / GeV
    ensures MesonShare(pionProb, kaonProb, FindNearest(csEgrid, E / GeV), meson).Err?
  {
    FindNearestPastEnd(csEgrid, E / GeV);
  }

  /** The integration box of one meson; a meson outside the table gets no lower edge. */
  function IntegrationBox(Enu: real, meson: string): (b: Box)
    requires meson in RDict
    ensures b.eMin == MinimumMuonBrotherEnergy(Enu, meson).value
    ensures Enu >= 0.0 ==> 0.0 <= b.eMin
    ensures b.xMin < b.xMax && b.hMin < b.hMax
  {
    var rr := RDict[meson];
    Box(0.0, 40.0 * Km, Enu * rr / (1.0 - rr), 10000000000.0 * GeV, 0.0, 40.0 * Km)
  }

  /** The sum of the integrals over the listed mesons, value and error estimate apart. */
  function QuadSum(mesons: seq<string>, Enu: real, tplquad: (string, real, Box) -> (real, real)): (real, real)
    requires forall m :: m in mesons ==> m in RDict
    decreases |mesons|
  {
    if |mesons| == 0 then (0.0, 0.0)
    else
      var (v, e) := QuadSum(mesons[..|mesons| - 1], Enu, tplquad);
      var (v1, e1) := tplquad(mesons[|mesons| - 1], Enu, IntegrationBox(Enu, mesons[|mesons| - 1]));
      (v + v1, e + e1)
  }

  /** Integrals that are non-negative over every box, value and error estimate
      apart, add up to a non-negative correlated probability and error estimate. */
  lemma {:induction false} QuadSumNonNegative(mesons: seq<string>, Enu: real, tplquad: (string, real, Box) -> (real, real))
    requires forall m :: m in mesons ==> m in RDict
    ensures (forall m :: m in mesons ==> 0.0 <= tplquad(m, Enu, IntegrationBox(Enu, m)).0) ==> 0.0 <= QuadSum(mesons, Enu, tplquad).0
    ensures (forall m :: m in mesons ==> 0.0 <= tplquad(m, Enu, IntegrationBox(Enu, m)).1) ==> 0.0 <= QuadSum(mesons, Enu, tplquad).1
    decreases |mesons|
  {
    if |mesons| > 0 {
      var init := mesons[..|mesons| - 1];
      assert forall m :: m in init ==> m in mesons;
      assert mesons[|mesons| - 1] in mesons;
      QuadSumNonNegative(init, Enu, tplquad);
    }
  }

  /** For every meson of `meson_list`, the lower companion-energy edge of its box is the
      minimum brother-muon energy, and every point of the box is a valid argument of the
      decay kernel `DecayProbability(Emu + Enu, x + h, meson)` for a positive neutrino
      energy: the kernel is defined there and never exceeds one. */
  lemma BoxMatchesKinematics(Enu: real, meson: string, emu: real, x: real, h: real)
    requires meson in MesonList
    ensures meson in RDict
    ensures IntegrationBox(Enu, meson).eMin == MinimumMuonBrotherEnergy(Enu, meson).value
    ensures var b := IntegrationBox(Enu, meson);
            Enu > 0.0 && b.eMin <= emu && b.hMin <= h && b.xMin <= x ==>
              DecayProbability(emu + Enu, x + h, meson).Ok?
              && DecayProbability(emu + Enu, x + h, meson).value.exponent.Num?
              && DecayProbability(emu + Enu, x + h, meson).value.exponent.v <= 0.0
  {
    TablesConsistent();
    var b := IntegrationBox(Enu, meson);
    if Enu > 0.0 && b.eMin <= emu && b.hMin <= h && b.xMin <= x {
      assert MinimumMuonBrotherEnergy(Enu, meson).value >= 0.0;
      DecayProbabilityBounds(emu + Enu, x + h, x + h, meson);
    }
  }
}
