/** The discrete bookkeeping of selfveto.py's `SelfVeto` engine: which parent species
    feed a neutrino channel, which projectiles regenerate a species, which depth sample
    a solution is read at and how its arrays are combined, how a channel `kind` is split
    and which companion weighting it gets, and where the primary-energy integration
    starts. The cascade solver's arrays are abstract real vectors. */
module SelfVeto {
  import opened Common
  import opened PyStrings

  // ---------------------------------------------------------------------------
  // Categories and parent species

  /** `is_prompt(categ)`: "pr", or a category whose first character is 'D' or 'L'.
      For any other empty category, `categ[0]` raises IndexError. */
  function IsPrompt(categ: string): (r: Result<bool>)
    ensures r.Err? <==> categ == []
  {
    if categ == "pr" then Ok(true)
    else if |categ| == 0 then Err(IndexError)
    else Ok(categ[0] in ['D', 'L'])
  }

  /** The parent lists of `categ_to_mothers`, once the two name tests on the daughter
      ("anti" in it, "nue" in it) are known. */
  function Mothers(categ: string, anti: bool, nue: bool): (ms: seq<string>)
    ensures |ms| == if categ == "conv" then (if nue then 5 else 4) else if categ == "pr" then 4 else 1
    ensures categ != "conv" && categ != "pr" ==> ms == [categ]
  {
    var charge := if anti then "-" else "+";
    var lcharge := if anti then "+" else "-";
    var bar := if anti then "-bar" else "";
    var lbar := if anti then "" else "-bar";
    if categ == "conv" then
      ["pi" + charge, "K" + charge, "K0L"]
        + (if nue then ["K0S", "mu" + charge] else ["mu" + lcharge])
    else if categ == "pr" then
      ["D" + charge, "Ds" + charge, "D0" + bar, "Lambda0" + lbar]
    else
      [categ]
  }

  /** `categ_to_mothers(categ, daughter)`: the parent species, in order, whose decays
      give `daughter` in category `categ`. Charge and "-bar" suffixes follow from whether
      "anti" occurs in the daughter's name. */
  function CategToMothers(categ: string, daughter: string): (mothers: seq<string>)
    ensures categ == "conv" ==> |mothers| == if Contains(daughter, "nue") then 5 else 4
    ensures categ == "pr" ==> |mothers| == 4
    ensures categ != "conv" && categ != "pr" ==> mothers == [categ]
    ensures mothers == Mothers(categ, Contains(daughter, "anti"), Contains(daughter, "nue"))
  {
    Mothers(categ, Contains(daughter, "anti"), Contains(daughter, "nue"))
  }

  /** The name of a species' antiparticle in the solver's naming: a trailing "-bar" is
      dropped, a trailing charge is flipped, K0L and K0S are their own antiparticles,
      and any other neutral name gains "-bar". */
  function Antiparticle(name: string): string
  {
    if EndsWith(name, "-bar") then name[..|name| - 4]
    else if EndsWith(name, "+") then name[..|name| - 1] + "-"
    else if EndsWith(name, "-") then name[..|name| - 1] + "+"
    else if name == "K0L" || name == "K0S" then name
    else name + "-bar"
  }

  function MapAntiparticle(names: seq<string>): (r: seq<string>)
    ensures |r| == |names|
    ensures forall i :: 0 <= i < |names| ==> r[i] == Antiparticle(names[i])
  {
    seq(|names|, i requires 0 <= i < |names| => Antiparticle(names[i]))
  }

  /** The conventional parent lists, written out for neutrino and antineutrino
      daughters, with and without "nue". */
  lemma ConvMothersWritten(d: string)
    ensures !Contains(d, "anti") && Contains(d, "nue") ==> CategToMothers("conv", d) == ["pi+", "K+", "K0L", "K0S", "mu+"]
    ensures !Contains(d, "anti") && !Contains(d, "nue") ==> CategToMothers("conv", d) == ["pi+", "K+", "K0L", "mu-"]
    ensures Contains(d, "anti") && Contains(d, "nue") ==> CategToMothers("conv", d) == ["pi-", "K-", "K0L", "K0S", "mu-"]
    ensures Contains(d, "anti") && !Contains(d, "nue") ==> CategToMothers("conv", d) == ["pi-", "K-", "K0L", "mu+"]
  {
    assert "pi" + "+" == "pi+" && "pi" + "-" == "pi-";
    assert "K" + "+" == "K+" && "K" + "-" == "K-";
    assert "mu" + "+" == "mu+" && "mu" + "-" == "mu-";
  }

  /** The prompt parent lists, written out for neutrino and antineutrino daughters. */
  lemma PromptMothersWritten(d: string)
    ensures !Contains(d, "anti") ==> CategToMothers("pr", d) == ["D+", "Ds+", "D0", "Lambda0-bar"]
    ensures Contains(d, "anti") ==> CategToMothers("pr", d) == ["D-", "Ds-", "D0-bar", "Lambda0"]
  {
    assert "D" + "+" == "D+" && "D" + "-" == "D-";
    assert "Ds" + "+" == "Ds+" && "Ds" + "-" == "Ds-";
    assert "D0" + "" == "D0" && "D0" + "-bar" == "D0-bar";
    assert "Lambda0" + "" == "Lambda0" && "Lambda0" + "-bar" == "Lambda0-bar";
  }

  /** The suffix rules of `Antiparticle` on a name with a charge or "-bar" suffix. */
  lemma AntiparticleOfSuffixed(b: string)
    ensures Antiparticle(b + "+") == b + "-"
    ensures Antiparticle(b + "-") == b + "+"
    ensures Antiparticle(b + "-bar") == b
  {
    var plus, minus, bar := b + "+", b + "-", b + "-bar";
    assert plus[|plus| - 1..] == "+" && plus[..|plus| - 1] == b;
    assert !EndsWith(plus, "-bar") by { if |plus| >= 4 { assert plus[|plus| - 4..][3] == '+'; } }
    assert minus[|minus| - 1..] == "-" && minus[..|minus| - 1] == b;
    assert !EndsWith(minus, "-bar") by { if |minus| >= 4 { assert minus[|minus| - 4..][3] == '-'; } }
    assert !EndsWith(minus, "+");
    assert bar[|bar| - 4..] == "-bar" && bar[..|bar| - 4] == b;
  }

  /** Charge conjugation on the parent lists: the antineutrino's list is the
      antiparticles of the neutrino's list, element by element. */
  lemma MothersConjugate(categ: string, nue: bool)
    requires categ == "conv" || categ == "pr"
    ensures Mothers(categ, true, nue) == MapAntiparticle(Mothers(categ, false, nue))
  {
    if categ == "conv" {
      ConvConjugate(nue);
    } else {
      PromptConjugate();
    }
  }

  lemma ConvConjugate(nue: bool)
    ensures Mothers("conv", true, nue) == MapAntiparticle(Mothers("conv", false, nue))
  {
    var m, a := Mothers("conv", false, nue), Mothers("conv", true, nue);
    var am := MapAntiparticle(m);
    AntiparticleOfSuffixed("pi");
    AntiparticleOfSuffixed("K");
    AntiparticleOfSuffixed("mu");
    assert m[0] == "pi" + "+" && a[0] == "pi" + "-";
    assert m[1] == "K" + "+" && a[1] == "K" + "-";
    assert m[2] == a[2] == "K0L";
    assert Antiparticle("K0L") == "K0L";
    if nue {
      assert m[3] == a[3] == "K0S";
      assert Antiparticle("K0S") == "K0S";
      assert m[4] == "mu" + "+" && a[4] == "mu" + "-";
    } else {
      assert m[3] == "mu" + "-" && a[3] == "mu" + "+";
    }
  }

  lemma PromptConjugate()
    ensures Mothers("pr", true, false) == MapAntiparticle(Mothers("pr", false, false))
  {
    var m, a := Mothers("pr", false, false), Mothers("pr", true, false);
    var am := MapAntiparticle(m);
    AntiparticleOfSuffixed("D");
    AntiparticleOfSuffixed("Ds");
    AntiparticleOfSuffixed("Lambda0");
    assert m[0] == "D" + "+" && a[0] == "D" + "-";
    assert m[1] == "Ds" + "+" && a[1] == "Ds" + "-";
    assert m[2] == "D0" && a[2] == "D0" + "-bar";
    AntiparticleOfNeutralD();
    assert m[3] == "Lambda0" + "-bar" && a[3] == "Lambda0";
    assert forall i :: 0 <= i < 4 ==> a[i] == am[i];
  }

  /** The neutral D meson is not its own antiparticle. */
  lemma AntiparticleOfNeutralD()
    ensures Antiparticle("D0") == "D0" + "-bar"
  {
    assert !EndsWith("D0", "-bar") && !EndsWith("D0", "+") && !EndsWith("D0", "-");
  }

  /** Charge conjugation: the parents of an antineutrino "anti"+d are exactly the
      antiparticles of the parents of the neutrino d, in the same order. */
  lemma MothersOfAntiDaughter(categ: string, d: string)
    requires categ == "conv" || categ == "pr"
    requires !Contains(d, "anti")
    ensures CategToMothers(categ, "anti" + d) == MapAntiparticle(CategToMothers(categ, d))
  {
    AntiPrefixIsAnti(d);
    AntiPrefixKeepsNu(d, "nue");
    MothersConjugate(categ, Contains(d, "nue"));
  }

  /** `is_prompt` agrees with `categ_to_mothers`: every parent of a prompt channel is
      itself a prompt category, and no parent of a conventional channel is. */
  lemma {:induction false} MotherCategoriesAgree(d: string)
    ensures forall m :: m in CategToMothers("pr", d) ==> IsPrompt(m) == Ok(true)
    ensures forall m :: m in CategToMothers("conv", d) ==> IsPrompt(m) == Ok(false)
  {
    ConvMothersWritten(d);
    PromptMothersWritten(d);
  }

  /** `get_integrand`'s sum over parents: `ys` starts at zero and every parent adds
      its term (decay kernel times rescaled parent flux, both external) times the
      companion weighting `weight`. Non-negative terms and weights give a non-negative sum. */
  function SumOverMothers(mothers: seq<string>, term: string -> seq<real>, weight: seq<real>, n: nat): (ys: seq<real>)
    requires |weight| == n
    requires forall m :: m in mothers ==> |term(m)| == n
    ensures |ys| == n
    ensures (forall m, i :: m in mothers && 0 <= i < n ==> 0.0 <= term(m)[i])
            && (forall i :: 0 <= i < n ==> 0.0 <= weight[i])
            ==> forall i :: 0 <= i < n ==> 0.0 <= ys[i]
  {
    if |mothers| == 0 then Zeros(n)
    else
      var last := mothers[|mothers| - 1];
      Add(SumOverMothers(mothers[..|mothers| - 1], term, weight, n), Mul(term(last), weight))
  }

  /** `get_integrand(categ, daughter, ..., weight_fn, ...)`: accumulates the weighted
      per-parent terms over the parents `categ_to_mothers` lists, on a sample axis of
      `n` points. */
  method GetIntegrand(categ: string, daughter: string, term: string -> seq<real>, weight: seq<real>, n: nat)
    returns (ys: seq<real>)
    requires |weight| == n
    requires forall m :: m in CategToMothers(categ, daughter) ==> |term(m)| == n
    ensures ys == SumOverMothers(CategToMothers(categ, daughter), term, weight, n)
  {
    var mothers := CategToMothers(categ, daughter);
    ys := Zeros(n);
    for i := 0 to |mothers|
      invariant ys == SumOverMothers(mothers[..i], term, weight, n)
    {
      assert mothers[..i + 1][..i] == mothers[..i];
      ys := Add(ys, Mul(term(mothers[i]), weight));
    }
    assert mothers[..|mothers|] == mothers;
  }

  /** The integrand of an antineutrino channel sums the same terms over the
      antiparticles of the neutrino channel's parents. */
  lemma IntegrandOfAntiDaughter(categ: string, d: string, term: string -> seq<real>, weight: seq<real>, n: nat)
    requires categ == "conv" || categ == "pr"
    requires !Contains(d, "anti")
    requires |weight| == n
    requires forall m :: |term(m)| == n
    ensures SumOverMothers(CategToMothers(categ, "anti" + d), term, weight, n)
         == SumOverMothers(MapAntiparticle(CategToMothers(categ, d)), term, weight, n)
  {
    MothersOfAntiDaughter(categ, d);
  }

  /** With non-negative per-parent terms, a pointwise smaller non-negative weighting
      gives a pointwise smaller integrand. */
  lemma {:induction false} IntegrandMonotone(mothers: seq<string>, term: string -> seq<real>,
                                             w: seq<real>, w2: seq<real>, n: nat)
    requires |w| == |w2| == n
    requires forall m :: m in mothers ==> |term(m)| == n
    requires forall m, i :: m in mothers && 0 <= i < n ==> 0.0 <= term(m)[i]
    requires forall i :: 0 <= i < n ==> 0.0 <= w[i] <= w2[i]
    ensures forall i :: 0 <= i < n ==>
              0.0 <= SumOverMothers(mothers, term, w, n)[i] <= SumOverMothers(mothers, term, w2, n)[i]
    decreases |mothers|
  {
    if |mothers| > 0 {
      var init, last := mothers[..|mothers| - 1], mothers[|mothers| - 1];
      assert forall m :: m in init ==> m in mothers;
      IntegrandMonotone(init, term, w, w2, n);
      var ys, ys2 := SumOverMothers(mothers, term, w, n), SumOverMothers(mothers, term, w2, n);
      var prev, prev2 := SumOverMothers(init, term, w, n), SumOverMothers(init, term, w2, n);
      forall i | 0 <= i < n
        ensures 0.0 <= ys[i] <= ys2[i]
      {
        var t := term(last)[i];
        assert 0.0 <= t;
        MulMonotone(0.0, w[i], t);
        MulMonotone(w[i], w2[i], t);
        assert ys[i] == prev[i] + t * w[i] && ys2[i] == prev2[i] + t * w2[i];
      }
    }
  }

  // ---------------------------------------------------------------------------
  // Projectiles

  /** What `projectiles()` appends for one allowed PDG id: the particle's name, then
      its antiparticle's name when the table has one. */
  function ProjectileEntry(id: int, namer: map<int, string>): (e: seq<string>)
    requires id in namer
    ensures 1 <= |e| <= 2 && e[0] == namer[id]
  {
    [namer[id]] + (if -id in namer then [namer[-id]] else [])
  }

  /** `projectiles()` over the allowed ids `ids` and the id-to-name table `namer`: a
      missing particle raises KeyError at the first id that lacks a name. */
  function Projectiles(ids: seq<int>, namer: map<int, string>): (r: Result<seq<string>>)
    ensures r.Err? ==> r.error.PdgKeyError? && r.error.id in ids && r.error.id !in namer
    ensures r.Ok? ==> forall id :: id in ids ==> id in namer
    decreases |ids|
  {
    if |ids| == 0 then Ok([])
    else if ids[0] !in namer then Err(PdgKeyError(ids[0]))
    else
      var rest :- Projectiles(ids[1..], namer);
      Ok(ProjectileEntry(ids[0], namer) + rest)
  }

  function Prepend(prefix: seq<string>, r: Result<seq<string>>): Result<seq<string>>
  {
    if r.Ok? then Ok(prefix + r.value) else r
  }

  lemma PrependTwice(a: seq<string>, b: seq<string>, r: Result<seq<string>>)
    ensures Prepend(a, Prepend(b, r)) == Prepend(a + b, r)
    ensures Prepend([], r) == r
  {
    if r.Ok? {
      assert a + (b + r.value) == (a + b) + r.value;
      assert [] + r.value == r.value;
    }
  }

  /** The loop of `projectiles()`. */
  method ProjectileList(ids: seq<int>, namer: map<int, string>) returns (r: Result<seq<string>>)
    ensures r == Projectiles(ids, namer)
  {
    var allowed: seq<string> := [];
    assert ids[0..] == ids;
    PrependTwice([], [], Projectiles(ids, namer));
    assert Prepend([], Projectiles(ids, namer)) == Projectiles(ids, namer);
    for i := 0 to |ids|
      invariant Projectiles(ids, namer) == Prepend(allowed, Projectiles(ids[i..], namer))
    {
      assert ids[i..][1..] == ids[i + 1..];
      if ids[i] !in namer {
        return Err(PdgKeyError(ids[i]));
      }
      ghost var entry := ProjectileEntry(ids[i], namer);
      ghost var before := allowed;
      assert Projectiles(ids[i..], namer) == Prepend(entry, Projectiles(ids[i + 1..], namer));
      PrependTwice(before, entry, Projectiles(ids[i + 1..], namer));
      allowed := allowed + [namer[ids[i]]];
      if -ids[i] in namer {
        allowed := allowed + [namer[-ids[i]]];
      }
      assert allowed == before + entry;
    }
    assert ids[|ids|..] == [];
    assert allowed + [] == allowed;
    r := Ok(allowed);
  }

  /** `projectiles()` raises exactly when some allowed id has no name, and then
      reports the first such id. */
  lemma {:induction false} ProjectilesFailure(ids: seq<int>, namer: map<int, string>)
    ensures Projectiles(ids, namer).Err? <==> exists j :: 0 <= j < |ids| && ids[j] !in namer
    ensures Projectiles(ids, namer).Err? ==>
              exists j :: 0 <= j < |ids| && Projectiles(ids, namer).error == PdgKeyError(ids[j])
                          && ids[j] !in namer && forall k :: 0 <= k < j ==> ids[k] in namer
    decreases |ids|
  {
    if |ids| > 0 && ids[0] in namer {
      ProjectilesFailure(ids[1..], namer);
      if Projectiles(ids[1..], namer).Err? {
        var j :| 0 <= j < |ids[1..]| && Projectiles(ids[1..], namer).error == PdgKeyError(ids[1..][j])
                 && ids[1..][j] !in namer && forall k :: 0 <= k < j ==> ids[1..][k] in namer;
        assert ids[j + 1] !in namer;
        assert forall k :: 0 <= k < j + 1 ==> ids[k] in namer by {
          forall k | 0 <= k < j + 1 ensures ids[k] in namer {
            if k > 0 { assert ids[k] == ids[1..][k - 1]; }
          }
        }
      } else {
        forall j | 0 <= j < |ids| ensures ids[j] in namer {
          if j > 0 { assert ids[j] == ids[1..][j - 1]; }
        }
      }
    }
  }

  /** Every allowed id contributes its name and possibly its antiparticle's, so the
      list holds between one and two names per id. */
  lemma {:induction false} ProjectilesLength(ids: seq<int>, namer: map<int, string>)
    requires Projectiles(ids, namer).Ok?
    ensures |ids| <= |Projectiles(ids, namer).value| <= 2 * |ids|
    decreases |ids|
  {
    if |ids| > 0 {
      ProjectilesLength(ids[1..], namer);
    }
  }

  /** Every allowed id is named, and its name is a projectile. */
  lemma {:induction false} ProjectilesCover(ids: seq<int>, namer: map<int, string>)
    requires Projectiles(ids, namer).Ok?
    ensures forall j :: 0 <= j < |ids| ==> ids[j] in namer && namer[ids[j]] in Projectiles(ids, namer).value
    decreases |ids|
  {
    if |ids| > 0 {
      ProjectilesCover(ids[1..], namer);
      var e := ProjectileEntry(ids[0], namer);
      var rest := Projectiles(ids[1..], namer).value;
      assert Projectiles(ids, namer).value == e + rest;
      forall j | 0 <= j < |ids| ensures ids[j] in namer && namer[ids[j]] in e + rest {
        if j > 0 {
          assert ids[j] == ids[1..][j - 1];
        } else {
          assert e[0] == namer[ids[0]];
        }
      }
    }
  }

  /** Every projectile is the name of an allowed id or of its antiparticle. */
  lemma {:induction false} ProjectilesOnlyAllowed(ids: seq<int>, namer: map<int, string>, x: string)
    requires Projectiles(ids, namer).Ok?
    requires x in Projectiles(ids, namer).value
    ensures exists j :: 0 <= j < |ids| && ids[j] in namer
                        && (x == namer[ids[j]] || (-ids[j] in namer && x == namer[-ids[j]]))
    decreases |ids|
  {
    var e := ProjectileEntry(ids[0], namer);
    var rest := Projectiles(ids[1..], namer).value;
    assert Projectiles(ids, namer).value == e + rest;
    if x in e {
      assert ids[0] in namer && (x == namer[ids[0]] || (-ids[0] in namer && x == namer[-ids[0]]));
    } else {
      assert x in rest;
      ProjectilesOnlyAllowed(ids[1..], namer, x);
      var j :| 0 <= j < |ids[1..]| && ids[1..][j] in namer
               && (x == namer[ids[1..][j]] || (-ids[1..][j] in namer && x == namer[-ids[1..][j]]));
      assert ids[1..][j] == ids[j + 1];
    }
  }

  // ---------------------------------------------------------------------------
  // get_solution: choosing the depth sample

  /** Python's `xs[i]` on a list of length `len`: negative indices count from the end,
      anything else out of range raises IndexError. */
  function PyIndex(len: nat, i: int): (r: Result<nat>)
    ensures r.Ok? <==> -(len as int) <= i < len
    ensures r.Ok? ==> r.value < len && (r.value == i || r.value == len + i)
  {
    if 0 <= i < len then Ok(i)
    else if -(len as int) <= i < 0 then Ok(len + i)
    else Err(IndexError)
  }

  /** The entry of the argument `grid_sol` and of `x_vec` that `get_solution` reads. */
  datatype Sample = Sample(solIndex: nat, depthIndex: nat)

  /** The index selection of `get_solution`: with no `grid_idx`, or one at or beyond
      the length of the solver's own `grid_sol`, the last entries (`[-1]`) are read;
      otherwise entry `grid_idx`, with Python's meaning for a negative index.
      `solverSamples` is `len(self.mceq.grid_sol)`, `solSamples` the length of the
      `grid_sol` argument and `depthSamples` that of `x_vec`. */
  function SelectSample(gridIdx: Option<int>, solverSamples: nat, solSamples: nat, depthSamples: nat): (r: Result<Sample>)
    ensures r.Ok? ==> r.value.solIndex < solSamples && r.value.depthIndex < depthSamples
    ensures r.Err? <==> solSamples == 0 || depthSamples == 0
                        || (gridIdx.Some? && gridIdx.value < solverSamples
                            && !(-(solSamples as int) <= gridIdx.value < solSamples && -(depthSamples as int) <= gridIdx.value < depthSamples))
  {
    var i := if gridIdx.None? || gridIdx.value >= solverSamples then -1 else gridIdx.value;
    var s :- PyIndex(solSamples, i);
    var x :- PyIndex(depthSamples, i);
    Ok(Sample(s, x))
  }

  /** With the solver's list, the argument and the depth grid all of length `n`:
      an absent or too large index reads the last sample; an index in range reads
      that sample; a negative index is not clamped but counts from the end, and one
      below `-n` raises IndexError. */
  lemma SelectSampleConsistent(gridIdx: Option<int>, n: nat)
    requires n > 0
    ensures gridIdx.None? ==> SelectSample(gridIdx, n, n, n) == Ok(Sample(n - 1, n - 1))
    ensures gridIdx.Some? && gridIdx.value >= n ==> SelectSample(gridIdx, n, n, n) == Ok(Sample(n - 1, n - 1))
    ensures gridIdx.Some? && 0 <= gridIdx.value < n ==>
              SelectSample(gridIdx, n, n, n) == Ok(Sample(gridIdx.value, gridIdx.value))
    ensures gridIdx.Some? && -(n as int) <= gridIdx.value < 0 ==>
              SelectSample(gridIdx, n, n, n) == Ok(Sample(n + gridIdx.value, n + gridIdx.value))
    ensures gridIdx.Some? && gridIdx.value < -(n as int) ==> SelectSample(gridIdx, n, n, n) == Err(IndexError)
  {
  }

  /** The fallback bound is the solver's list, not the argument: an index past the end
      of a shorter argument but inside the solver's list is not redirected and raises
      IndexError. */
  lemma SelectSampleChecksSolverBound(i: int, solverSamples: nat, solSamples: nat, depthSamples: nat)
    requires solSamples <= i < solverSamples
    ensures SelectSample(Some(i), solverSamples, solSamples, depthSamples) == Err(IndexError)
  {
  }

  // ---------------------------------------------------------------------------
  // get_solution: combining the arrays

  /** The solver state at one depth sample, as slices `sol[ref[name].lidx():ref[name].uidx()]`. */
  type State = map<string, seq<real>>

  type Matrix = seq<seq<real>>

  /** What `get_solution` reads from the cascade solver, on an energy grid of `|eWidths|` points. */
  datatype Cascade = Cascade(
    eWidths: seq<real>,                       // `e_widths`
    solverSamples: nat,                       // `len(self.mceq.grid_sol)`
    allowedIds: seq<int>,                     // `config['adv_set']['allowed_projectiles']`
    pdgName: map<int, string>,                // `ParticleProperties.modtab.pdg2modname`
    pdgNames: set<string>,                    // the names `ParticleProperties.pdg_id` knows
    crossSection: map<string, seq<real>>,     // `cs.get_cs(pdg_id[prim])`
    yieldMatrix: map<(string, string), Matrix>,         // `y.get_y_matrix(projectile, daughter)`
    targets: seq<real>,                       // number of targets per cm2 at each `x_vec` sample
    decayLength: map<string, seq<real>>)      // the decay length on the grid, per species

  /** The solver's arrays all live on the same grid. */
  ghost predicate WellFormed(c: Cascade)
  {
    var n := |c.eWidths|;
    && (forall p :: p in c.pdgNames ==> p in c.crossSection && |c.crossSection[p]| == n)
    && (forall k :: k in c.yieldMatrix ==> IsMatrix(c.yieldMatrix[k], n))
    && (forall s :: s in c.decayLength ==> |c.decayLength[s]| == n)
  }

  ghost predicate StateOnGrid(sol: State, n: nat)
  {
    forall s :: s in sol ==> |sol[s]| == n
  }

  /** `res[direct != 0] = direct[direct != 0]`: the direct solution replaces the
      regenerated value wherever the direct solution is non-zero. */
  function Overlay(res: seq<real>, direct: seq<real>): (r: seq<real>)
    requires |res| == |direct|
    ensures |r| == |res|
    ensures forall i :: 0 <= i < |res| ==> r[i] == if direct[i] != 0.0 then direct[i] else res[i]
  {
    seq(|res|, i requires 0 <= i < |res| => if direct[i] != 0.0 then direct[i] else res[i])
  }

  /** Overlaying is idempotent, a zero direct solution leaves the regenerated values,
      and where the direct solution is non-zero the regenerated value does not matter. */
  lemma OverlayProperties(res: seq<real>, other: seq<real>, direct: seq<real>)
    requires |res| == |other| == |direct|
    ensures Overlay(Overlay(res, direct), direct) == Overlay(res, direct)
    ensures (forall i :: 0 <= i < |direct| ==> direct[i] == 0.0) ==> Overlay(res, direct) == res
    ensures (forall i :: 0 <= i < |direct| && direct[i] == 0.0 ==> res[i] == other[i]) ==>
              Overlay(res, direct) == Overlay(other, direct)
  {
  }

  /** The regeneration loop: each projectile's slice of the state must exist (KeyError
      otherwise) and must have a PDG id (KeyError otherwise); a projectile without an
      interaction-yield matrix for `name` is skipped; the others add
      `yields . (flux * xs * targets)` to the accumulator. */
  function Regenerate(c: Cascade, name: string, sol: State, targets: real,
                      prims: seq<string>, acc: seq<real>): (r: Result<seq<real>>)
    requires WellFormed(c) && StateOnGrid(sol, |c.eWidths|) && |acc| == |c.eWidths|
    ensures r.Ok? ==> |r.value| == |c.eWidths|
    ensures r.Ok? ==> forall p :: p in prims ==> p in sol && p in c.pdgNames
    ensures r.Err? ==> r.error.KeyError? && r.error.key in prims
                       && (r.error.key !in sol || r.error.key !in c.pdgNames)
    decreases |prims|
  {
    if |prims| == 0 then Ok(acc)
    else
      var p := prims[0];
      if p !in sol then Err(KeyError(p))
      else if p !in c.pdgNames then Err(KeyError(p))
      else if (p, name) !in c.yieldMatrix then Regenerate(c, name, sol, targets, prims[1..], acc)
      else
        var flux := Scale(Mul(sol[p], c.crossSection[p]), targets);
        Regenerate(c, name, sol, targets, prims[1..], Add(acc, MatVec(c.yieldMatrix[(p, name)], flux)))
  }

  /** `particle_name[:-1] == 'mu'` */
  predicate IsMuonName(name: string): (b: bool)
    ensures b ==> |name| == 3 && name == "mu" + [name[2]]
    ensures name == "mu+" || name == "mu-" ==> b
  {
    |name| == 3 && name[..2] == "mu"
  }

  /** The sub-solutions the solver keeps apart for muons: kaon-, pion- and prompt-origin. */
  function MuonParts(name: string): (ps: seq<string>)
    ensures |ps| == 3 && ps[0] != ps[1] && ps[1] != ps[2] && ps[0] != ps[2]
  {
    assert ("k_" + name)[0] != ("pi_" + name)[0] == ("pr_" + name)[0];
    assert ("pi_" + name)[1] != ("pr_" + name)[1];
    ["k_" + name, "pi_" + name, "pr_" + name]
  }

  /** Adds the slices named `parts`, in order; a missing one raises KeyError. */
  function AddParts(acc: seq<real>, sol: State, parts: seq<string>): (r: Result<seq<real>>)
    requires StateOnGrid(sol, |acc|)
    ensures r.Ok? ==> |r.value| == |acc|
    ensures r.Err? <==> exists k :: k in parts && k !in sol
    ensures r.Err? ==> r.error.KeyError? && r.error.key in parts && r.error.key !in sol
    decreases |parts|
  {
    if |parts| == 0 then Ok(acc)
    else if parts[0] !in sol then Err(KeyError(parts[0]))
    else
      assert forall k :: k in parts <==> k == parts[0] || k in parts[1..];
      AddParts(Add(acc, sol[parts[0]]), sol, parts[1..])
  }

  /** The end of `get_solution` once the regenerated flux `regen` is known: scaled by
      the decay length, overlaid by the direct solution (KeyError when the state has no
      slice for `name`), plus the muon sub-solutions for `mu±`, times `magFactor`, and
      times the bin widths when `integrate`. */
  function Finish(c: Cascade, name: string, sol: State, regen: seq<real>,
                  magFactor: seq<real>, integrate: bool): (r: Result<seq<real>>)
    requires name in c.decayLength && |c.decayLength[name]| == |regen| == |magFactor| == |c.eWidths|
    requires StateOnGrid(sol, |c.eWidths|)
    ensures r.Ok? ==> |r.value| == |c.eWidths|
    ensures name !in sol ==> r == Err(KeyError(name))
    ensures r.Err? <==> name !in sol || (IsMuonName(name) && exists k :: k in MuonParts(name) && k !in sol)
    ensures r.Err? ==> r.error.KeyError? && r.error.key !in sol
  {
    if name !in sol then Err(KeyError(name))
    else
      var combined := Overlay(Mul(regen, c.decayLength[name]), sol[name]);
      var total :- if IsMuonName(name) then AddParts(combined, sol, MuonParts(name)) else Ok(combined);
      var scaled := Mul(total, magFactor);
      Ok(if integrate then Mul(scaled, c.eWidths) else scaled)
  }

  /** `get_solution(name, grid_sol, mag, grid_idx, integrate)`, with `magFactor` the
      external `e_grid ** mag`: the PDG id check, the choice of depth sample, the decay
      length lookup, `projectiles()` (which raises on an allowed id without a name),
      the regeneration over those projectiles, and then `Finish`. */
  function Solution(c: Cascade, name: string, gridSol: seq<State>, magFactor: seq<real>,
                    gridIdx: Option<int>, integrate: bool): (r: Result<seq<real>>)
    requires WellFormed(c) && |magFactor| == |c.eWidths|
    requires forall k :: 0 <= k < |gridSol| ==> StateOnGrid(gridSol[k], |c.eWidths|)
    ensures r.Ok? ==> |r.value| == |c.eWidths|
  {
    var n := |c.eWidths|;
    if name !in c.pdgNames then Err(KeyError(name))
    else
      var k :- SelectSample(gridIdx, c.solverSamples, |gridSol|, |c.targets|);
      var sol := gridSol[k.solIndex];
      if name !in c.decayLength then Err(KeyError(name))
      else
        var prims :- Projectiles(c.allowedIds, c.pdgName);
        var regen :- Regenerate(c, name, sol, c.targets[k.depthIndex], prims, Zeros(n));
        Finish(c, name, sol, regen, magFactor, integrate)
  }

  /** Adding the three muon sub-solutions succeeds only when all three are present, and
      then adds each of them bin by bin. */
  lemma MuonPartsAt(acc: seq<real>, sol: State, name: string, i: nat)
    requires StateOnGrid(sol, |acc|) && i < |acc|
    requires AddParts(acc, sol, MuonParts(name)).Ok?
    ensures "k_" + name in sol && "pi_" + name in sol && "pr_" + name in sol
    ensures AddParts(acc, sol, MuonParts(name)).value[i]
         == acc[i] + sol["k_" + name][i] + sol["pi_" + name][i] + sol["pr_" + name][i]
  {
    var ps := MuonParts(name);
    assert ps[0] in sol;
    var a1 := Add(acc, sol[ps[0]]);
    assert AddParts(acc, sol, ps) == AddParts(a1, sol, ps[1..]);
    assert ps[1..][0] == ps[1] && ps[1] in sol;
    var a2 := Add(a1, sol[ps[1]]);
    assert AddParts(a1, sol, ps[1..]) == AddParts(a2, sol, ps[2..]);
    assert ps[2..][0] == ps[2] && ps[2] in sol;
    var a3 := Add(a2, sol[ps[2]]);
    assert AddParts(a2, sol, ps[2..]) == AddParts(a3, sol, ps[3..]);
    assert ps[3..] == [];
  }

  /** `Finish` bin by bin. */
  lemma FinishAt(c: Cascade, name: string, sol: State, regen: seq<real>,
                 magFactor: seq<real>, integrate: bool, i: nat)
    requires name in c.decayLength && |c.decayLength[name]| == |regen| == |magFactor| == |c.eWidths|
    requires StateOnGrid(sol, |c.eWidths|) && i < |c.eWidths|
    requires Finish(c, name, sol, regen, magFactor, integrate).Ok?
    ensures name in sol
    ensures IsMuonName(name) ==> "k_" + name in sol && "pi_" + name in sol && "pr_" + name in sol
    ensures Finish(c, name, sol, regen, magFactor, integrate).value[i]
         == ((if sol[name][i] != 0.0 then sol[name][i] else regen[i] * c.decayLength[name][i])
             + (if IsMuonName(name) then sol["k_" + name][i] + sol["pi_" + name][i] + sol["pr_" + name][i] else 0.0))
            * magFactor[i] * (if integrate then c.eWidths[i] else 1.0)
  {
    var combined := Overlay(Mul(regen, c.decayLength[name]), sol[name]);
    if IsMuonName(name) {
      MuonPartsAt(combined, sol, name, i);
    }
  }

  /** `res += v` in place. */
  method AddInto(res: array<real>, v: seq<real>)
    requires res.Length == |v|
    modifies res
    ensures res[..] == Add(old(res[..]), v)
  {
    for i := 0 to res.Length
      invariant forall j :: 0 <= j < i ==> res[j] == old(res[j]) + v[j]
      invariant forall j :: i <= j < res.Length ==> res[j] == old(res[j])
    {
      res[i] := res[i] + v[i];
    }
    assert forall j :: 0 <= j < res.Length ==> res[..][j] == Add(old(res[..]), v)[j];
  }

  /** `res *= v` in place. */
  method MulInto(res: array<real>, v: seq<real>)
    requires res.Length == |v|
    modifies res
    ensures res[..] == Mul(old(res[..]), v)
  {
    for i := 0 to res.Length
      invariant forall j :: 0 <= j < i ==> res[j] == old(res[j]) * v[j]
      invariant forall j :: i <= j < res.Length ==> res[j] == old(res[j])
    {
      res[i] := res[i] * v[i];
    }
    assert forall j :: 0 <= j < res.Length ==> res[..][j] == Mul(old(res[..]), v)[j];
  }

  /** `res[direct != 0] = direct[direct != 0]` in place. */
  method OverlayInto(res: array<real>, direct: seq<real>)
    requires res.Length == |direct|
    modifies res
    ensures res[..] == Overlay(old(res[..]), direct)
  {
    for i := 0 to res.Length
      invariant forall j :: 0 <= j < i ==> res[j] == (if direct[j] != 0.0 then direct[j] else old(res[j]))
      invariant forall j :: i <= j < res.Length ==> res[j] == old(res[j])
    {
      if direct[i] != 0.0 {
        res[i] := direct[i];
      }
    }
    assert forall j :: 0 <= j < res.Length ==> res[..][j] == Overlay(old(res[..]), direct)[j];
  }

  /** `get_solution`, step by step on one array `res`. */
  method GetSolution(c: Cascade, name: string, gridSol: seq<State>, magFactor: seq<real>,
                     gridIdx: Option<int>, integrate: bool) returns (r: Result<seq<real>>)
    requires WellFormed(c) && |magFactor| == |c.eWidths|
    requires forall k :: 0 <= k < |gridSol| ==> StateOnGrid(gridSol[k], |c.eWidths|)
    ensures r == Solution(c, name, gridSol, magFactor, gridIdx, integrate)
  {
    var n := |c.eWidths|;
    if name !in c.pdgNames {
      return Err(KeyError(name));
    }
    var k := SelectSample(gridIdx, c.solverSamples, |gridSol|, |c.targets|);
    if k.Err? {
      return Err(k.error);
    }
    var sol := gridSol[k.value.solIndex];
    var targets := c.targets[k.value.depthIndex];
    if name !in c.decayLength {
      return Err(KeyError(name));
    }
    var allowed := ProjectileList(c.allowedIds, c.pdgName);
    if allowed.Err? {
      return Err(allowed.error);
    }
    var prims := allowed.value;
    var res := new real[n](_ => 0.0);
    ghost var zeros := res[..];
    assert zeros == Zeros(n);
    for i := 0 to |prims|
      invariant res.Length == n
      invariant Regenerate(c, name, sol, targets, prims, zeros)
             == Regenerate(c, name, sol, targets, prims[i..], res[..])
    {
      var p := prims[i];
      assert prims[i..][1..] == prims[i + 1..];
      if p !in sol || p !in c.pdgNames {
        return Err(KeyError(p));
      }
      if (p, name) in c.yieldMatrix {
        AddInto(res, MatVec(c.yieldMatrix[(p, name)], Scale(Mul(sol[p], c.crossSection[p]), targets)));
      }
    }
    assert prims[|prims|..] == [];
    MulInto(res, c.decayLength[name]);
    if name !in sol {
      return Err(KeyError(name));
    }
    OverlayInto(res, sol[name]);
    if IsMuonName(name) {
      var parts := MuonParts(name);
      ghost var base := res[..];
      for j := 0 to |parts|
        invariant AddParts(base, sol, parts) == AddParts(res[..], sol, parts[j..])
      {
        assert parts[j..][1..] == parts[j + 1..];
        if parts[j] !in sol {
          return Err(KeyError(parts[j]));
        }
        AddInto(res, sol[parts[j]]);
      }
      assert parts[|parts|..] == [];
    }
    MulInto(res, magFactor);
    if integrate {
      MulInto(res, c.eWidths);
    }
    r := Ok(res[..]);
  }

  /** A successful `get_solution` is `Finish` applied to the chosen depth sample and
      its regenerated flux. */
  lemma SolutionIsFinish(c: Cascade, name: string, gridSol: seq<State>, magFactor: seq<real>,
                         gridIdx: Option<int>, integrate: bool) returns (regen: seq<real>)
    requires WellFormed(c) && |magFactor| == |c.eWidths|
    requires forall k :: 0 <= k < |gridSol| ==> StateOnGrid(gridSol[k], |c.eWidths|)
    requires Solution(c, name, gridSol, magFactor, gridIdx, integrate).Ok?
    ensures SelectSample(gridIdx, c.solverSamples, |gridSol|, |c.targets|).Ok?
    ensures Projectiles(c.allowedIds, c.pdgName).Ok?
    ensures var k := SelectSample(gridIdx, c.solverSamples, |gridSol|, |c.targets|).value;
            var sol := gridSol[k.solIndex];
            var prims := Projectiles(c.allowedIds, c.pdgName).value;
            && name in c.decayLength && StateOnGrid(sol, |c.eWidths|)
            && Regenerate(c, name, sol, c.targets[k.depthIndex], prims, Zeros(|c.eWidths|)) == Ok(regen)
            && |regen| == |c.eWidths|
            && Solution(c, name, gridSol, magFactor, gridIdx, integrate) == Finish(c, name, sol, regen, magFactor, integrate)
  {
    var n := |c.eWidths|;
    var k := SelectSample(gridIdx, c.solverSamples, |gridSol|, |c.targets|).value;
    var sol := gridSol[k.solIndex];
    var prims := Projectiles(c.allowedIds, c.pdgName).value;
    regen := Regenerate(c, name, sol, c.targets[k.depthIndex], prims, Zeros(n)).value;
  }

  /** The result of `get_solution` at an energy bin is the direct solution where that
      is non-zero and the decay length times the regenerated flux elsewhere; for a muon the three pre-split
      sub-solutions are added on top; the magnification factor and (when integrating)
      the bin width then multiply every bin. */
  lemma SolutionAt(c: Cascade, name: string, gridSol: seq<State>, magFactor: seq<real>,
                   gridIdx: Option<int>, integrate: bool, i: nat) returns (sol: State, regen: seq<real>)
    requires WellFormed(c) && |magFactor| == |c.eWidths|
    requires forall k :: 0 <= k < |gridSol| ==> StateOnGrid(gridSol[k], |c.eWidths|)
    requires Solution(c, name, gridSol, magFactor, gridIdx, integrate).Ok?
    requires i < |c.eWidths|
    ensures SelectSample(gridIdx, c.solverSamples, |gridSol|, |c.targets|).Ok?
    ensures Projectiles(c.allowedIds, c.pdgName).Ok?
    ensures sol == gridSol[SelectSample(gridIdx, c.solverSamples, |gridSol|, |c.targets|).value.solIndex]
    ensures Regenerate(c, name, sol, c.targets[SelectSample(gridIdx, c.solverSamples, |gridSol|, |c.targets|).value.depthIndex],
                       Projectiles(c.allowedIds, c.pdgName).value, Zeros(|c.eWidths|)) == Ok(regen)
    ensures name in sol && name in c.decayLength && |regen| == |c.eWidths|
    ensures IsMuonName(name) ==> "k_" + name in sol && "pi_" + name in sol && "pr_" + name in sol
    ensures Solution(c, name, gridSol, magFactor, gridIdx, integrate).value[i]
         == ((if sol[name][i] != 0.0 then sol[name][i] else regen[i] * c.decayLength[name][i])
             + (if IsMuonName(name) then sol["k_" + name][i] + sol["pi_" + name][i] + sol["pr_" + name][i] else 0.0))
            * magFactor[i] * (if integrate then c.eWidths[i] else 1.0)
  {
    var k := SelectSample(gridIdx, c.solverSamples, |gridSol|, |c.targets|).value;
    sol := gridSol[k.solIndex];
    regen := SolutionIsFinish(c, name, gridSol, magFactor, gridIdx, integrate);
    FinishAt(c, name, sol, regen, magFactor, integrate, i);
  }

  // ---------------------------------------------------------------------------
  // get_fluxes: channel kind and companion weighting

  /** `categ, daughter = kind.split('_')`: anything but exactly two pieces raises
      ValueError when unpacked. */
  function SplitKind(kind: string): (r: Result<(string, string)>)
    ensures r.Ok? ==> kind == r.value.0 + "_" + r.value.1 && '_' !in r.value.0 && '_' !in r.value.1
    ensures r.Err? ==> r.error.ValueError?
  {
    var parts := Split(kind, '_');
    JoinSplit(kind, '_');
    SplitPiecesHaveNoSeparator(kind, '_');
    if |parts| == 2 then
      assert parts[1..] == [parts[1]];
      Ok((parts[0], parts[1]))
    else Err(ValueError("kind must be <category>_<daughter>"))
  }

  /** `SplitKind` succeeds exactly on `c + "_" + d` with no underscore in `c` or `d`,
      and then gives back `c` and `d`. */
  lemma SplitKindRoundTrip(kind: string, c: string, d: string)
    ensures SplitKind(kind) == Ok((c, d)) <==> (kind == c + "_" + d && '_' !in c && '_' !in d)
  {
    if SplitKind(kind) == Ok((c, d)) {
      JoinSplit(kind, '_');
      SplitPiecesHaveNoSeparator(kind, '_');
      var parts := Split(kind, '_');
      assert parts == [c, d];
      assert parts[1..] == [d];
    }
    if kind == c + "_" + d && '_' !in c && '_' !in d {
      var parts := [c, d];
      assert parts[1..] == [d];
      assert Join(parts, '_') == kind;
      SplitJoin(parts, '_');
    }
  }

  /** The companion weighting `get_fluxes` builds: ones, `1 - reach probability` from
      two-body kinematics (conventional), or from the prompt decay histogram (prompt). */
  datatype Weighting = Identity | ConventionalReach | PromptReach

  /** The weighting choice of `get_fluxes`: the identity whenever "numu" does not occur
      in the daughter; otherwise by `is_prompt(categ)`, which raises on an empty category. */
  function ChooseWeighting(categ: string, daughter: string): (r: Result<Weighting>)
    ensures r.Err? <==> Contains(daughter, "numu") && categ == []
    ensures r.Err? ==> r.error == IndexError
  {
    if !Contains(daughter, "numu") then Ok(Identity)
    else
      var prompt :- IsPrompt(categ);
      Ok(if prompt then PromptReach else ConventionalReach)
  }

  /** The weighting of a channel and of its antineutrino channel agree, and it follows
      the category: identity for non-muon-neutrino daughters, the prompt histogram
      for "pr" and D/L categories, two-body reach for any other non-empty category. */
  lemma WeightingOfChannel(categ: string, d: string)
    ensures ChooseWeighting(categ, "anti" + d) == ChooseWeighting(categ, d)
    ensures !Contains(d, "numu") ==> ChooseWeighting(categ, d) == Ok(Identity)
    ensures Contains(d, "numu") ==>
              (ChooseWeighting(categ, d) == Ok(PromptReach) <==> (categ == "pr" || (categ != [] && categ[0] in ['D', 'L'])))
    ensures Contains(d, "numu") ==>
              (ChooseWeighting(categ, d) == Ok(ConventionalReach) <==> (categ != "pr" && categ != [] && categ[0] !in ['D', 'L']))
  {
    AntiPrefixKeepsNu(d, "numu");
  }

  /** The weights on the companion sample axis: ones for the identity, else one minus
      the external probability that the companion muon reaches the detector. */
  function Weights(w: Weighting, reach: seq<real>): (ws: seq<real>)
    ensures |ws| == |reach|
    ensures forall i :: 0 <= i < |ws| ==> (w == Identity ==> ws[i] == 1.0) && (w != Identity ==> ws[i] + reach[i] == 1.0)
    ensures forall i :: 0 <= i < |ws| && 0.0 <= reach[i] <= 1.0 ==> 0.0 <= ws[i] <= 1.0
  {
    if w == Identity then seq(|reach|, _ => 1.0)
    else seq(|reach|, i requires 0 <= i < |reach| => 1.0 - reach[i])
  }

  // ---------------------------------------------------------------------------
  // get_fluxes: accumulating over depth and primary energy

  /** One depth sample's contribution, integrated over the companion energies `esamp`:
      with non-negative per-parent terms, reach probabilities in [0, 1] and, for the
      full mode, no-muon probabilities `pnm` in [0, 1], the weighted integrand (times
      `pnm` in the full mode) integrates to at most the identity-weighted one on
      non-decreasing sample energies. `esamp` runs from `enu` up to the top of the
      energy grid, so this holds for `enu` at most the grid's last energy; above it
      `logspace` runs downward and `trapz` changes sign. */
  lemma DepthTermBounded(mothers: seq<string>, term: string -> seq<real>, w: Weighting,
                         reach: seq<real>, pnm: seq<real>, esamp: seq<real>)
    requires |reach| == |pnm| == |esamp| && NonDecreasing(esamp)
    requires forall m :: m in mothers ==> |term(m)| == |esamp|
    requires forall m, i :: m in mothers && 0 <= i < |esamp| ==> 0.0 <= term(m)[i]
    requires forall i :: 0 <= i < |reach| ==> 0.0 <= reach[i] <= 1.0
    requires forall i :: 0 <= i < |pnm| ==> 0.0 <= pnm[i] <= 1.0
    ensures Trapz(SumOverMothers(mothers, term, Weights(w, reach), |esamp|), esamp)
         <= Trapz(SumOverMothers(mothers, term, Weights(Identity, reach), |esamp|), esamp)
    ensures Trapz(Mul(SumOverMothers(mothers, term, Weights(w, reach), |esamp|), pnm), esamp)
         <= Trapz(SumOverMothers(mothers, term, Weights(Identity, reach), |esamp|), esamp)
  {
    var n := |esamp|;
    var ws, ones := Weights(w, reach), Weights(Identity, reach);
    assert forall i :: 0 <= i < n ==> 0.0 <= ws[i] <= ones[i];
    IntegrandMonotone(mothers, term, ws, ones, n);
    var ys, ids := SumOverMothers(mothers, term, ws, n), SumOverMothers(mothers, term, ones, n);
    TrapzMonotone(ys, ids, esamp);
    ScaledBelow(ys, ids, pnm);
    TrapzMonotone(Mul(ys, pnm), ids, esamp);
  }

  /** Multiplying a non-negative vector by factors in [0, 1] keeps it below a bound. */
  lemma ScaledBelow(ys: seq<real>, ids: seq<real>, pnm: seq<real>)
    requires |ys| == |ids| == |pnm|
    requires forall i :: 0 <= i < |ys| ==> 0.0 <= ys[i] <= ids[i]
    requires forall i :: 0 <= i < |pnm| ==> 0.0 <= pnm[i] <= 1.0
    ensures forall i :: 0 <= i < |ys| ==> Mul(ys, pnm)[i] <= ids[i]
  {
    forall i | 0 <= i < |ys|
      ensures Mul(ys, pnm)[i] <= ids[i]
    {
      MulMonotone(pnm[i], 1.0, ys[i]);
    }
  }

  /** `passed += ...` / `total += ...` over the depth samples, one integral per sample. */
  method AccumulateOverDepth(terms: seq<real>) returns (acc: real)
    ensures acc == Sum(terms)
  {
    acc := 0.0;
    for idx := 0 to |terms|
      invariant acc == Sum(terms[..idx])
    {
      assert terms[..idx + 1][..idx] == terms[..idx];
      acc := acc + terms[idx];
    }
    assert terms[..|terms|] == terms;
  }

  /** The correlated-only branch: `passed` and `total` are the sums over depth of the
      weighted and the identity integrals; where each weighted integral is at most the
      identity one (as `DepthTermBounded` gives), `passed <= total`, and non-negative
      weighted integrals give a non-negative `passed`. */
  method CorrelatedOnlyFluxes(numTerms: seq<real>, denTerms: seq<real>) returns (passed: real, total: real)
    requires |numTerms| == |denTerms|
    ensures passed == Sum(numTerms) && total == Sum(denTerms)
    ensures (forall i :: 0 <= i < |numTerms| ==> numTerms[i] <= denTerms[i]) ==> passed <= total
    ensures (forall i :: 0 <= i < |numTerms| ==> 0.0 <= numTerms[i]) ==> 0.0 <= passed
  {
    passed := AccumulateOverDepth(numTerms);
    total := AccumulateOverDepth(denTerms);
    if forall i :: 0 <= i < |numTerms| ==> numTerms[i] <= denTerms[i] {
      SumMonotone(numTerms, denTerms);
    }
    if forall i :: 0 <= i < |numTerms| ==> 0.0 <= numTerms[i] {
      SumNonNegative(numTerms);
    }
  }

  /** Index of the first `ecr` above `enu`, or `|ecrs|` when there is none. */
  function FirstAbove(ecrs: seq<real>, enu: real): (k: nat)
    ensures k <= |ecrs|
    ensures forall j :: 0 <= j < k ==> ecrs[j] <= enu
    ensures k < |ecrs| ==> ecrs[k] > enu
    decreases |ecrs|
  {
    if |ecrs| == 0 then 0
    else if ecrs[0] > enu then 0
    else 1 + FirstAbove(ecrs[1..], enu)
  }

  /** `istart = max(0, np.argmax(ecrs > enu) - 1)`; `argmax` of an all-false mask is 0,
      and of an empty array raises ValueError. */
  function IStart(ecrs: seq<real>, enu: real): (r: Result<nat>)
    ensures r.Err? <==> |ecrs| == 0
  {
    if |ecrs| == 0 then Err(ValueError("attempt to get argmax of an empty sequence"))
    else
      var k := FirstAbove(ecrs, enu);
      var argmax: nat := if k == |ecrs| then 0 else k;
      var istart: nat := if argmax == 0 then 0 else argmax - 1;
      Ok(istart)
  }

  /** `istart` is a valid index; it is 0 when no primary energy exceeds `enu`;
      otherwise it is one before the first energy above `enu` (or 0 when that is the
      first energy), so every energy before `istart` is at most `enu` and, on an
      increasing grid, every energy after it exceeds `enu`. */
  lemma IStartPlacement(ecrs: seq<real>, enu: real)
    requires |ecrs| > 0
    ensures IStart(ecrs, enu).value < |ecrs|
    ensures (forall j :: 0 <= j < |ecrs| ==> ecrs[j] <= enu) ==> IStart(ecrs, enu).value == 0
    ensures forall j :: 0 <= j < IStart(ecrs, enu).value ==> ecrs[j] <= enu
    ensures (exists j :: 0 <= j < |ecrs| && ecrs[j] > enu) ==>
              var i := IStart(ecrs, enu).value;
              (i == 0 && ecrs[0] > enu) || (ecrs[i] <= enu && i + 1 < |ecrs| && ecrs[i + 1] > enu)
    ensures (forall a, b :: 0 <= a < b < |ecrs| ==> ecrs[a] < ecrs[b]) && (exists j :: 0 <= j < |ecrs| && ecrs[j] > enu) ==>
              forall j :: IStart(ecrs, enu).value < j < |ecrs| ==> ecrs[j] > enu
  {
    var k := FirstAbove(ecrs, enu);
    if exists j :: 0 <= j < |ecrs| && ecrs[j] > enu {
      assert k < |ecrs|;
    }
  }

  /** One primary energy's depth loop: the weighted and identity integrals summed over depth together. */
  method DepthSums(numRow: seq<real>, denRow: seq<real>) returns (numEcr: real, denEcr: real)
    requires |numRow| == |denRow|
    ensures numEcr == Sum(numRow) && denEcr == Sum(denRow)
  {
    numEcr := 0.0;
    denEcr := 0.0;
    for idx := 0 to |numRow|
      invariant numEcr == Sum(numRow[..idx]) && denEcr == Sum(denRow[..idx])
    {
      assert numRow[..idx + 1][..idx] == numRow[..idx];
      assert denRow[..idx + 1][..idx] == denRow[..idx];
      numEcr := numEcr + numRow[idx];
      denEcr := denEcr + denRow[idx];
    }
    assert numRow[..|numRow|] == numRow;
    assert denRow[..|denRow|] == denRow;
  }

  /** One primary energy's entry of the column: its depth sum times its primary-flux weight. */
  function Weighted(terms: seq<seq<real>>, crWeight: seq<real>, e: nat): real
    requires e < |terms| && e < |crWeight|
  {
    Sum(terms[e]) * crWeight[e]
  }

  /** The column of one nucleus species from `istart` on. */
  function ColumnOf(terms: seq<seq<real>>, crWeight: seq<real>, istart: nat): (col: seq<real>)
    requires istart <= |terms| == |crWeight|
    ensures |col| == |terms| - istart
    ensures forall j :: 0 <= j < |col| ==> col[j] == Weighted(terms, crWeight, istart + j)
  {
    seq(|terms| - istart, j requires 0 <= j < |terms| - istart => Weighted(terms, crWeight, istart + j))
  }

  /** The full-mode column for one nucleus species: for each primary energy from
      `istart` on, the depth sums of the weighted and identity integrals, each times
      that energy's primary-flux weight, appended to `nums` and `dens`. */
  method EnergyColumn(ecrs: seq<real>, enu: real, numTerms: seq<seq<real>>, denTerms: seq<seq<real>>,
                      crWeight: seq<real>) returns (r: Result<(seq<real>, seq<real>)>)
    requires |numTerms| == |denTerms| == |crWeight| == |ecrs|
    requires forall e :: 0 <= e < |ecrs| ==> |numTerms[e]| == |denTerms[e]|
    ensures r.Err? <==> |ecrs| == 0
    ensures r.Err? ==> r.error == IStart(ecrs, enu).error
    ensures r.Ok? ==> IStart(ecrs, enu).Ok?
                      && r.value == (ColumnOf(numTerms, crWeight, IStart(ecrs, enu).value),
                                     ColumnOf(denTerms, crWeight, IStart(ecrs, enu).value))
  {
    var start := IStart(ecrs, enu);
    if start.Err? {
      return Err(start.error);
    }
    IStartPlacement(ecrs, enu);
    var istart := start.value;
    var nums: seq<real> := [];
    var dens: seq<real> := [];
    for e := istart to |ecrs|
      invariant |nums| == |dens| == e - istart
      invariant forall j :: 0 <= j < |nums| ==>
                  nums[j] == Weighted(numTerms, crWeight, istart + j)
                  && dens[j] == Weighted(denTerms, crWeight, istart + j)
    {
      var numEcr, denEcr := DepthSums(numTerms[e], denTerms[e]);
      nums := nums + [numEcr * crWeight[e]];
      dens := dens + [denEcr * crWeight[e]];
      assert nums[e - istart] == Weighted(numTerms, crWeight, e);
      assert dens[e - istart] == Weighted(denTerms, crWeight, e);
    }
    assert nums == ColumnOf(numTerms, crWeight, istart);
    assert dens == ColumnOf(denTerms, crWeight, istart);
    r := Ok((nums, dens));
  }

  /** What the full mode reads for one nucleus species of the primary model: its
      primary energies `ecrs`; for each of them and each depth sample, the integral of
      the weighted integrand times the no-muon probability (`numTerms`) and of the
      identity integrand (`denTerms`); and its primary-flux weight `cr_flux / phicm2`. */
  datatype Species = Species(ecrs: seq<real>, numTerms: seq<seq<real>>, denTerms: seq<seq<real>>, crWeight: seq<real>)

  ghost predicate SpeciesOnGrid(sp: Species)
  {
    && |sp.numTerms| == |sp.denTerms| == |sp.crWeight| == |sp.ecrs|
    && forall e :: 0 <= e < |sp.ecrs| ==> |sp.numTerms[e]| == |sp.denTerms[e]|
  }

  /** The physical ordering of one species' inputs: increasing primary energies
      (`amu * logspace`), non-negative primary fluxes, and every weighted integral at
      most its identity one (`DepthTermBounded`). */
  ghost predicate SpeciesOrdered(sp: Species)
    requires SpeciesOnGrid(sp)
  {
    && NonDecreasing(sp.ecrs)
    && (forall e :: 0 <= e < |sp.crWeight| ==> 0.0 <= sp.crWeight[e])
    && (forall e, i :: 0 <= e < |sp.numTerms| && 0 <= i < |sp.numTerms[e]| ==> sp.numTerms[e][i] <= sp.denTerms[e][i])
  }

  /** One species' contribution `(trapz(nums, ecrs[istart:]), trapz(dens, ecrs[istart:]))`;
      an empty `ecrs` raises ValueError. In the program the first to raise is the
      linear `interp1d` over `(ecrs, pnm)`, built before the `argmax`; the `argmax` of an
      empty array would raise the same class. */
  function SpeciesIntegrals(sp: Species, enu: real): (r: Result<(real, real)>)
    requires SpeciesOnGrid(sp)
    ensures r.Err? <==> |sp.ecrs| == 0
  {
    var istart :- IStart(sp.ecrs, enu);
    IStartPlacement(sp.ecrs, enu);
    Ok((Trapz(ColumnOf(sp.numTerms, sp.crWeight, istart), sp.ecrs[istart..]),
        Trapz(ColumnOf(sp.denTerms, sp.crWeight, istart), sp.ecrs[istart..])))
  }

  /** The full mode's `(passed, total)`: the species' contributions added in the order
      of `nucleus_ids`; the first species with no primary energies raises. */
  function FullMode(species: seq<Species>, enu: real): (r: Result<(real, real)>)
    requires forall k :: 0 <= k < |species| ==> SpeciesOnGrid(species[k])
    ensures r.Err? ==> |species| > 0
    decreases |species|
  {
    if |species| == 0 then Ok((0.0, 0.0))
    else
      var init := species[..|species| - 1];
      assert forall k :: 0 <= k < |init| ==> init[k] == species[k];
      var (p, t) :- FullMode(init, enu);
      var (dp, dt) :- SpeciesIntegrals(species[|species| - 1], enu);
      Ok((p + dp, t + dt))
  }

  /** The full mode raises exactly when some species has no primary energies. */
  lemma {:induction false} FullModeRaises(species: seq<Species>, enu: real)
    requires forall k :: 0 <= k < |species| ==> SpeciesOnGrid(species[k])
    ensures FullMode(species, enu).Err? <==> exists k :: 0 <= k < |species| && |species[k].ecrs| == 0
    decreases |species|
  {
    if |species| > 0 {
      var init := species[..|species| - 1];
      assert forall k :: 0 <= k < |init| ==> init[k] == species[k];
      FullModeRaises(init, enu);
    }
  }

  /** Once a prefix of the species raises, the whole full mode raises the same error. */
  lemma {:induction false} FullModeErrPrefix(species: seq<Species>, k: nat, enu: real)
    requires forall j :: 0 <= j < |species| ==> SpeciesOnGrid(species[j])
    requires k <= |species|
    requires FullMode(species[..k], enu).Err?
    ensures FullMode(species, enu) == FullMode(species[..k], enu)
    decreases |species| - k
  {
    if k < |species| {
      var init := species[..|species| - 1];
      assert init[..k] == species[..k];
      FullModeErrPrefix(init, k, enu);
    } else {
      assert species[..k] == species;
    }
  }

  /** One more species adds its contribution to the prefix's `(passed, total)`. */
  lemma FullModeStep(species: seq<Species>, k: nat, enu: real)
    requires forall j :: 0 <= j < |species| ==> SpeciesOnGrid(species[j])
    requires k < |species| && FullMode(species[..k], enu).Ok? && SpeciesIntegrals(species[k], enu).Ok?
    ensures FullMode(species[..k + 1], enu)
            == Ok((FullMode(species[..k], enu).value.0 + SpeciesIntegrals(species[k], enu).value.0,
                   FullMode(species[..k], enu).value.1 + SpeciesIntegrals(species[k], enu).value.1))
  {
    var prefix := species[..k + 1];
    assert prefix[..|prefix| - 1] == species[..k] && prefix[|prefix| - 1] == species[k];
  }

  /** A species with no primary energies after a prefix that did not raise makes the
      whole full mode raise its error. */
  lemma FullModeStepRaises(species: seq<Species>, k: nat, enu: real)
    requires forall j :: 0 <= j < |species| ==> SpeciesOnGrid(species[j])
    requires k < |species| && FullMode(species[..k], enu).Ok? && SpeciesIntegrals(species[k], enu).Err?
    ensures FullMode(species, enu) == Err(SpeciesIntegrals(species[k], enu).error)
  {
    var prefix := species[..k + 1];
    assert prefix[..|prefix| - 1] == species[..k] && prefix[|prefix| - 1] == species[k];
    FullModeErrPrefix(species, k + 1, enu);
  }

  /** The full-mode loop of `get_fluxes` over the species of the primary model: each
      species' column, then `passed += trapz(nums, ...)` and `total += trapz(dens, ...)`. */
  method FullModeFluxes(species: seq<Species>, enu: real) returns (r: Result<(real, real)>)
    requires forall k :: 0 <= k < |species| ==> SpeciesOnGrid(species[k])
    ensures r == FullMode(species, enu)
  {
    var passed, total := 0.0, 0.0;
    assert species[..0] == [];
    for k := 0 to |species|
      invariant FullMode(species[..k], enu) == Ok((passed, total))
    {
      var sp := species[k];
      var column := EnergyColumn(sp.ecrs, enu, sp.numTerms, sp.denTerms, sp.crWeight);
      if column.Err? {
        FullModeStepRaises(species, k, enu);
        return Err(column.error);
      }
      FullModeStep(species, k, enu);
      var istart := IStart(sp.ecrs, enu).value;
      passed := passed + Trapz(column.value.0, sp.ecrs[istart..]);
      total := total + Trapz(column.value.1, sp.ecrs[istart..]);
    }
    assert species[..|species|] == species;
    r := Ok((passed, total));
  }

  /** Within one species: with non-negative primary fluxes and every weighted integral
      at most its identity one, every entry of `nums` is at most the matching entry of
      `dens`, and on increasing primary energies `trapz(nums, ecrs[istart:])` is at most
      `trapz(dens, ecrs[istart:])`. */
  lemma ColumnBounded(sp: Species, istart: nat)
    requires SpeciesOnGrid(sp) && SpeciesOrdered(sp) && istart <= |sp.ecrs|
    ensures forall j :: 0 <= j < |sp.ecrs| - istart ==>
              ColumnOf(sp.numTerms, sp.crWeight, istart)[j] <= ColumnOf(sp.denTerms, sp.crWeight, istart)[j]
    ensures Trapz(ColumnOf(sp.numTerms, sp.crWeight, istart), sp.ecrs[istart..])
         <= Trapz(ColumnOf(sp.denTerms, sp.crWeight, istart), sp.ecrs[istart..])
  {
    var nums, dens := ColumnOf(sp.numTerms, sp.crWeight, istart), ColumnOf(sp.denTerms, sp.crWeight, istart);
    forall j | 0 <= j < |nums| ensures nums[j] <= dens[j] {
      var e := istart + j;
      SumMonotone(sp.numTerms[e], sp.denTerms[e]);
      MulMonotone(Sum(sp.numTerms[e]), Sum(sp.denTerms[e]), sp.crWeight[e]);
    }
    var x := sp.ecrs[istart..];
    assert NonDecreasing(x) by {
      forall i | 0 < i < |x| ensures x[i - 1] <= x[i] {
        assert x[i - 1] == sp.ecrs[istart + i - 1] && x[i] == sp.ecrs[istart + i];
      }
    }
    TrapzMonotone(nums, dens, x);
  }

  /** The full mode never lets through more than it counts: on ordered inputs for
      every species, `passed <= total`. */
  lemma {:induction false} FullModeBounded(species: seq<Species>, enu: real)
    requires forall k :: 0 <= k < |species| ==> SpeciesOnGrid(species[k]) && SpeciesOrdered(species[k])
    requires FullMode(species, enu).Ok?
    ensures FullMode(species, enu).value.0 <= FullMode(species, enu).value.1
    decreases |species|
  {
    if |species| > 0 {
      var init, last := species[..|species| - 1], species[|species| - 1];
      assert forall k :: 0 <= k < |init| ==> init[k] == species[k];
      FullModeBounded(init, enu);
      ColumnBounded(last, IStart(last.ecrs, enu).value);
    }
  }
}
