/** The pass-rate dispatch tables of nuVeto/external/helper.py: a channel `kind`
    such as "conv_numu" or "pr_antinue" is normalised by deleting "anti" and then
    looked up in a fixed table that chooses one of the external pass-rate functions,
    partially applied to its own `kind` argument. */
module PassRates {
  import opened Common
  import opened PyStrings

  /** A pass-rate function of the external self-veto module, as the tables hand it out:
      the joint rate with its `kind` fixed, the uncorrelated rate with its `kind` fixed,
      or the correlated rate. */
  datatype RateFn = Joint(kind: string) | Uncorrelated(kind: string) | Correlated

  /** `find_pf` of `passrates` */
  const PassratesTable: map<string, RateFn> := map[
    "conv_numu" := Joint("numu"),
    "pr_numu" := Joint("charm"),
    "conv_nue" := Uncorrelated("nue"),
    "pr_nue" := Uncorrelated("charm")]

  /** `find_pf` of `corr` */
  const CorrTable: map<string, RateFn> := map[
    "conv_numu" := Correlated,
    "pr_numu" := Correlated]

  /** `find_pf` of `uncorr` */
  const UncorrTable: map<string, RateFn> := map[
    "conv_numu" := Uncorrelated("numu"),
    "pr_numu" := Uncorrelated("charm"),
    "conv_nue" := Uncorrelated("nue"),
    "pr_nue" := Uncorrelated("charm")]

  /** `kind.replace('anti', '')` */
  function Normalise(kind: string): string
  {
    RemoveAll(kind, "anti")
  }

  /** `find_pf[kind.replace('anti', '')]`: a missing key raises KeyError. */
  function Dispatch(table: map<string, RateFn>, kind: string): (r: Result<RateFn>)
    ensures r.Ok? <==> Normalise(kind) in table
    ensures r.Ok? ==> r.value == table[Normalise(kind)]
    ensures r.Err? ==> r.error == KeyError(Normalise(kind))
  {
    var key := Normalise(kind);
    if key in table then Ok(table[key]) else Err(KeyError(key))
  }

  /** `passrates(kind)`: the joint rate for muon-neutrino channels, the uncorrelated
      rate alone for electron-neutrino ones, KeyError for anything else. */
  function Passrates(kind: string): (r: Result<RateFn>)
    ensures r.Ok? ==> !r.value.Correlated?
    ensures r.Err? ==> r.error == KeyError(Normalise(kind))
  {
    Dispatch(PassratesTable, kind)
  }

  /** `corr(kind)`: the correlated rate, for muon-neutrino channels only. */
  function Corr(kind: string): (r: Result<RateFn>)
    ensures r.Ok? ==> r.value == Correlated
    ensures r.Err? ==> r.error == KeyError(Normalise(kind))
  {
    Dispatch(CorrTable, kind)
  }

  /** `uncorr(kind)`: the uncorrelated rate, for the same four channels as `passrates`. */
  function Uncorr(kind: string): (r: Result<RateFn>)
    ensures r.Ok? ==> r.value.Uncorrelated?
    ensures r.Err? ==> r.error == KeyError(Normalise(kind))
  {
    Dispatch(UncorrTable, kind)
  }

  /** `joint_passing_rate(enu, emu, cth, kind)`: the correlated rate times the
      uncorrelated rate for `kind`; both rates are external and passed in. */
  function JointPassingRate(enu: real, emu: real, cth: real, kind: string,
                            correlated: (real, real, real) -> real,
                            uncorrelated: (real, real, real, string) -> real): (rate: real)
    ensures var c, u := correlated(enu, emu, cth), uncorrelated(enu, emu, cth, kind);
            0.0 <= c <= 1.0 && 0.0 <= u <= 1.0 ==> 0.0 <= rate
    ensures var c, u := correlated(enu, emu, cth), uncorrelated(enu, emu, cth, kind);
            0.0 <= c <= 1.0 && 0.0 <= u <= 1.0 ==> rate <= c
    ensures var c, u := correlated(enu, emu, cth), uncorrelated(enu, emu, cth, kind);
            0.0 <= c <= 1.0 && 0.0 <= u <= 1.0 ==> rate <= u
  {
    var c, u := correlated(enu, emu, cth), uncorrelated(enu, emu, cth, kind);
    if 0.0 <= c <= 1.0 && 0.0 <= u <= 1.0 then
      ProductOfProbabilities(c, u);
      c * u
    else c * u
  }

  /** Calling a function the tables hand out. */
  function Apply(f: RateFn, enu: real, emu: real, cth: real,
                 correlated: (real, real, real) -> real,
                 uncorrelated: (real, real, real, string) -> real): real
  {
    match f
    case Joint(k) => JointPassingRate(enu, emu, cth, k, correlated, uncorrelated)
    case Uncorrelated(k) => uncorrelated(enu, emu, cth, k)
    case Correlated => correlated(enu, emu, cth)
  }

  /** The normalisation of a channel name `c_d` deletes "anti" independently on each
      side of the underscore. */
  lemma NormaliseAroundUnderscore(c: string, d: string)
    ensures Normalise(c + "_" + d) == Normalise(c) + "_" + Normalise(d)
  {
    assert c + "_" + d == c + ['_'] + d;
    RemoveAllAround(c, '_', d, "anti");
  }

  /** A channel and its anti form (`c_antid` against `c_d`) normalise to the same key. */
  lemma NormaliseAntiForm(c: string, d: string)
    ensures Normalise(c + "_anti" + d) == Normalise(c + "_" + d)
  {
    assert c + "_anti" + d == c + ['_'] + ("anti" + d);
    RemoveAllAround(c, '_', "anti" + d, "anti");
    AntiIsBorderless();
    RemoveAllBetween([], d, "anti");
    assert [] + "anti" + d == "anti" + d;
    NormaliseAroundUnderscore(c, d);
  }

  /** All three lookups dispatch a channel and its anti form identically, including
      raising the same KeyError. */
  lemma AntiFormDispatchesAlike(c: string, d: string)
    ensures Passrates(c + "_anti" + d) == Passrates(c + "_" + d)
    ensures Corr(c + "_anti" + d) == Corr(c + "_" + d)
    ensures Uncorr(c + "_anti" + d) == Uncorr(c + "_" + d)
  {
    NormaliseAntiForm(c, d);
  }

  /** A table key contains no 'a', so it is its own normal form. */
  lemma KeysAreNormal(key: string)
    requires key in PassratesTable
    ensures Normalise(key) == key
  {
    assert 'a' !in key;
    RemoveAllAbsent(key, "anti");
  }

  /** A channel of the table and its anti form both find the channel's entry. */
  lemma ChannelAndAntiForm(c: string, d: string)
    requires c + "_" + d in PassratesTable
    ensures Passrates(c + "_anti" + d) == Passrates(c + "_" + d) == Ok(PassratesTable[c + "_" + d])
  {
    KeysAreNormal(c + "_" + d);
    AntiFormDispatchesAlike(c, d);
  }

  /** Conventional muon neutrinos and antineutrinos get the joint rate with kind "numu". */
  lemma ConvNumuChannel()
    ensures Passrates("conv_numu") == Passrates("conv_antinumu") == Ok(Joint("numu"))
  {
    assert "conv" + "_" + "numu" == "conv_numu" && "conv" + "_anti" + "numu" == "conv_antinumu";
    ChannelAndAntiForm("conv", "numu");
  }

  /** Prompt muon neutrinos and antineutrinos get the joint rate with kind "charm". */
  lemma PromptNumuChannel()
    ensures Passrates("pr_numu") == Passrates("pr_antinumu") == Ok(Joint("charm"))
  {
    assert "pr" + "_" + "numu" == "pr_numu" && "pr" + "_anti" + "numu" == "pr_antinumu";
    ChannelAndAntiForm("pr", "numu");
  }

  /** Conventional electron neutrinos and antineutrinos get the uncorrelated rate alone, with kind "nue". */
  lemma ConvNueChannel()
    ensures Passrates("conv_nue") == Passrates("conv_antinue") == Ok(Uncorrelated("nue"))
  {
    assert "conv" + "_" + "nue" == "conv_nue" && "conv" + "_anti" + "nue" == "conv_antinue";
    ChannelAndAntiForm("conv", "nue");
  }

  /** Prompt electron neutrinos and antineutrinos get the uncorrelated rate alone, with kind "charm". */
  lemma PromptNueChannel()
    ensures Passrates("pr_nue") == Passrates("pr_antinue") == Ok(Uncorrelated("charm"))
  {
    assert "pr" + "_" + "nue" == "pr_nue" && "pr" + "_anti" + "nue" == "pr_antinue";
    ChannelAndAntiForm("pr", "nue");
  }

  /** How the three tables relate, for every `kind`:
      - `uncorr` is defined exactly where `passrates` is;
      - `corr` is defined exactly where `passrates` hands out a joint rate, and then
        `uncorr` hands out that joint rate's uncorrelated factor;
      - where `passrates` hands out an uncorrelated rate, `uncorr` hands out the same
        one and `corr` raises KeyError. */
  lemma TablesAgree(kind: string)
    ensures Passrates(kind).Ok? <==> Uncorr(kind).Ok?
    ensures Corr(kind).Ok? <==> (Passrates(kind).Ok? && Passrates(kind).value.Joint?)
    ensures Corr(kind).Ok? ==> Uncorr(kind) == Ok(Uncorrelated(Passrates(kind).value.kind))
    ensures Passrates(kind).Ok? && Passrates(kind).value.Uncorrelated? ==>
              Uncorr(kind) == Passrates(kind) && Corr(kind) == Err(KeyError(Normalise(kind)))
  {
  }

  /** The channels each lookup accepts, once "anti" is deleted: `passrates` and
      `uncorr` the four channels, `corr` and the joint entries of `passrates` the two
      muon-neutrino ones. */
  lemma AcceptedChannels(kind: string)
    ensures Passrates(kind).Ok? <==> Normalise(kind) in {"conv_numu", "pr_numu", "conv_nue", "pr_nue"}
    ensures Uncorr(kind).Ok? <==> Normalise(kind) in {"conv_numu", "pr_numu", "conv_nue", "pr_nue"}
    ensures Corr(kind).Ok? <==> Normalise(kind) in {"conv_numu", "pr_numu"}
    ensures Passrates(kind).Ok? ==> (Passrates(kind).value.Joint? <==> Normalise(kind) in {"conv_numu", "pr_numu"})
  {
    assert PassratesTable.Keys == UncorrTable.Keys == {"conv_numu", "pr_numu", "conv_nue", "pr_nue"};
    assert CorrTable.Keys == {"conv_numu", "pr_numu"};
  }

  /** Where `passrates` hands out the joint rate, it is the product of what `corr`
      and `uncorr` hand out for the same channel. */
  lemma JointFactorises(kind: string, enu: real, emu: real, cth: real,
                        correlated: (real, real, real) -> real,
                        uncorrelated: (real, real, real, string) -> real)
    requires Passrates(kind).Ok? && Passrates(kind).value.Joint?
    ensures Corr(kind).Ok? && Uncorr(kind).Ok?
    ensures Apply(Passrates(kind).value, enu, emu, cth, correlated, uncorrelated)
         == Apply(Corr(kind).value, enu, emu, cth, correlated, uncorrelated)
          * Apply(Uncorr(kind).value, enu, emu, cth, correlated, uncorrelated)
  {
    TablesAgree(kind);
    var k := Passrates(kind).value.kind;
    assert Corr(kind).value == Correlated && Uncorr(kind).value == Uncorrelated(k);
    assert Apply(Passrates(kind).value, enu, emu, cth, correlated, uncorrelated)
        == JointPassingRate(enu, emu, cth, k, correlated, uncorrelated);
  }
}
