/** The module-level engine registry of selfveto.py (`SVS`): one `SelfVeto` engine per
    configuration `(cos_theta, pmodel, hadr)`, built on first use and reused by every
    later `passing_rate` or `total_flux` call with the same configuration. */
module EngineRegistry {
  import opened Common

  /** A primary cosmic-ray model: the model family and its tag, such as
      (HillasGaisser2012, "H3a"). */
  datatype PrimaryModel = PrimaryModel(family: string, tag: string)

  /** The key under which `SVS` stores an engine. */
  datatype EngineKey = EngineKey(cosTheta: real, pmodel: PrimaryModel, hadr: string)

  /** The arguments of `get_fluxes` other than the engine. */
  datatype FluxQuery = FluxQuery(enu: real, kind: string, accuracy: int, prpl: string, corrOnly: bool)

  /** A `SelfVeto` engine; its solver set-up is fixed by the configuration it was built with. */
  class Engine {
    const key: EngineKey

    constructor (key: EngineKey)
      ensures this.key == key
    {
      this.key := key;
    }
  }

  /** `SVS`, the registry shared by `passing_rate` and `total_flux`. */
  class Registry {
    var engines: map<EngineKey, Engine>
    /** How many engines have been built so far. */
    ghost var built: nat

    /** Every engine is stored under the configuration it was built with. */
    ghost predicate Valid()
      reads this, engines.Values
    {
      forall k :: k in engines ==> engines[k].key == k
    }

    constructor ()
      ensures Valid() && engines == map[] && built == 0
    {
      engines := map[];
      built := 0;
    }

    /** The `try: SVS[key] / except KeyError:` block: an engine already stored under
        `key` is reused and nothing changes; otherwise exactly one engine is built,
        stored under `key`, and every other entry stays as it was. */
    method Lookup(key: EngineKey) returns (sv: Engine)
      requires Valid()
      modifies this
      ensures Valid()
      ensures sv.key == key && key in engines && engines[key] == sv
      ensures key in old(engines) ==> sv == old(engines)[key] && engines == old(engines) && built == old(built)
      ensures key !in old(engines) ==> fresh(sv) && engines == old(engines)[key := sv] && built == old(built) + 1
    {
      if key in engines {
        sv := engines[key];
      } else {
        sv := new Engine(key);
        engines := engines[key := sv];
        built := built + 1;
      }
    }

    /** `passing_rate(enu, cos_theta, kind, pmodel, hadr, ...)`: the engine for the
        configuration is looked up or built, then `get_fluxes` (external, a function
        of the engine's configuration and the query) gives `(num, den)`, and the
        result is `num/den` when `fraction`, otherwise `num`. The engine stays
        registered even when `get_fluxes` raises. */
    method PassingRate(key: EngineKey, q: FluxQuery, fraction: bool,
                       getFluxes: (EngineKey, FluxQuery) -> Result<(real, real)>) returns (r: Result<Float>)
      requires Valid()
      modifies this
      ensures Valid() && key in engines
      ensures old(engines).Keys <= engines.Keys && engines.Keys == old(engines).Keys + {key}
      ensures forall k :: k in old(engines) ==> engines[k] == old(engines)[k]
      ensures built == old(built) + (if key in old(engines) then 0 else 1)
      ensures r == RateOf(getFluxes(key, q), fraction)
    {
      var sv := Lookup(key);
      var fluxes := getFluxes(sv.key, q);
      if fluxes.Err? {
        return Err(fluxes.error);
      }
      var (num, den) := fluxes.value;
      r := Ok(if fraction then Divide(num, den) else Num(num));
    }

    /** `total_flux(...)`: the same lookup, then the second component of `get_fluxes`. */
    method TotalFlux(key: EngineKey, q: FluxQuery,
                     getFluxes: (EngineKey, FluxQuery) -> Result<(real, real)>) returns (r: Result<real>)
      requires Valid()
      modifies this
      ensures Valid() && key in engines
      ensures engines.Keys == old(engines).Keys + {key}
      ensures forall k :: k in old(engines) ==> engines[k] == old(engines)[k]
      ensures built == old(built) + (if key in old(engines) then 0 else 1)
      ensures r == TotalOf(getFluxes(key, q))
    {
      var sv := Lookup(key);
      var fluxes := getFluxes(sv.key, q);
      if fluxes.Err? {
        return Err(fluxes.error);
      }
      r := Ok(fluxes.value.1);
    }
  }

  /** What `passing_rate` returns for the fluxes `(num, den)`. */
  function RateOf(fluxes: Result<(real, real)>, fraction: bool): (r: Result<Float>)
    ensures r.Err? <==> fluxes.Err?
    ensures r.Err? ==> r.error == fluxes.error
    ensures r.Ok? && !fraction ==> r.value == Num(fluxes.value.0)
    ensures r.Ok? && fraction ==> (r.value.Num? <==> fluxes.value.1 != 0.0)
    ensures r.Ok? && fraction && r.value.Num? ==> r.value.v * fluxes.value.1 == fluxes.value.0
  {
    var (num, den) :- fluxes;
    Ok(if fraction then Divide(num, den) else Num(num))
  }

  /** What `total_flux` returns for the fluxes `(num, den)`. */
  function TotalOf(fluxes: Result<(real, real)>): (r: Result<real>)
    ensures r.Err? <==> fluxes.Err?
    ensures r.Err? ==> r.error == fluxes.error
    ensures r.Ok? ==> r.value == fluxes.value.1
  {
    var (_, den) :- fluxes;
    Ok(den)
  }

  /** The passing fraction times the total flux is the passing flux: both calls fail
      together; with `fraction` unset the rate is the passing flux itself; with it set,
      the rate is finite exactly when the total is non-zero, and then rate times total
      is the passing rate without `fraction`. */
  lemma FractionTimesTotal(fluxes: Result<(real, real)>)
    ensures RateOf(fluxes, true).Err? <==> TotalOf(fluxes).Err?
    ensures RateOf(fluxes, false).Err? <==> TotalOf(fluxes).Err?
    ensures fluxes.Ok? ==> RateOf(fluxes, false) == Ok(Num(fluxes.value.0))
    ensures fluxes.Ok? ==> (RateOf(fluxes, true).value.Num? <==> TotalOf(fluxes).value != 0.0)
    ensures fluxes.Ok? && TotalOf(fluxes).value != 0.0 ==>
              RateOf(fluxes, true).value.v * TotalOf(fluxes).value == RateOf(fluxes, false).value.v
  {
  }

  /** A `passing_rate` call followed by a `total_flux` call for the same configuration
      builds at most one engine between them, and their results fit together as
      `FractionTimesTotal` says. */
  method RateAndTotal(svs: Registry, key: EngineKey, q: FluxQuery,
                      getFluxes: (EngineKey, FluxQuery) -> Result<(real, real)>)
    returns (rate: Result<Float>, total: Result<real>)
    requires svs.Valid()
    modifies svs
    ensures svs.Valid()
    ensures svs.built == old(svs.built) + (if key in old(svs.engines) then 0 else 1)
    ensures rate.Err? <==> total.Err?
    ensures total.Ok? ==> getFluxes(key, q).Ok? && total.value == getFluxes(key, q).value.1
    ensures total.Ok? && total.value != 0.0 ==>
              rate.value.Num? && rate.value.v * total.value == getFluxes(key, q).value.0
  {
    rate := svs.PassingRate(key, q, true, getFluxes);
    total := svs.TotalFlux(key, q, getFluxes);
    FractionTimesTotal(getFluxes(key, q));
  }
}
