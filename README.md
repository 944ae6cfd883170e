# nuVeto self-veto bookkeeping in Dafny

nuVeto computes the atmospheric-neutrino passing fraction, the share of atmospheric
neutrinos that arrive at a deep detector without a companion muon from the same air
shower. The numbers come from the MCEq cascade solver and from numerical integration.
Around those numbers sits discrete bookkeeping, and this project models it and proves
properties of it:

- which parent species feed a neutrino channel, and which of them are prompt;
- which projectiles regenerate a species;
- at which depth sample a cascade solution is read, and how its arrays are combined:
  - regeneration, scaled by the decay length;
  - the direct solution overlaid wherever it is non-zero;
  - the pre-split muon sub-solutions added on top;
- how a channel `kind` is split into category and daughter;
- which companion-muon weighting a channel gets;
- where the primary-energy integration starts;
- how the engine registry `SVS` is used lookup-or-create;
- how the pass-rate tables in `nuVeto/external/helper.py` dispatch a channel;
- the tables, grid search, kinematic edges and name guards of the draft correlated
  calculator in `correlated_selfveto.py`.

Floating-point physics stays abstract:

- solver outputs are `seq<real>` vectors;
- `trapz` is the trapezoid rule on exact reals;
- interpolants, the triple integral `tplquad` and the solver's own functions are parameters;
- `exp` and `log` are kept as symbolic exponents and ratios;
- a numpy division by zero is the value `NonFinite`.

Modules:

- `Common` (common.dfy):
  - the Python exceptions the code raises, as a `Result` type;
  - numpy floats;
  - elementwise vector arithmetic and sums.
- `PyStrings` (pystrings.dfy): Python's `t in s`, `s.split(c)` and `s.replace(t, '')`.
- `PassRates` (passrates.dfy): `nuVeto/external/helper.py`.
- `SelfVeto` (selfveto.dfy): the `SelfVeto` class of `selfveto.py`.
- `EngineRegistry` (registry.dfy): `SVS`, `passing_rate` and `total_flux`.
- `CorrelatedSelfVeto` (correlated.dfy): `correlated_selfveto.py`.

Where the source loops or updates state, the model does too:

- `projectiles`, `get_solution`, `get_integrand` and the accumulations of `get_fluxes`
  are methods with loops:
  - each is proved equal to a specification function;
  - `get_solution` works in place on an array.
- The registry and the correlated calculator are classes whose methods update their
  fields.

## Model

| member | source | states |
|---|---|---|
| Common.Divide | selfveto.py:319 | numpy division is finite exactly for a non-zero divisor, and then the quotient times the divisor is the dividend |
| Common.DivideAll | correlated_selfveto.py:114-115 | elementwise division keeps the length, entry by entry |
| Common.TrapzMonotone | selfveto.py:302-303 | on non-decreasing sample points, a pointwise smaller integrand has a trapezoid integral no larger |
| SelfVeto.IsPrompt | selfveto.py:47-48 | `is_prompt` raises (IndexError) exactly for the empty category; otherwise it is true for "pr" and for categories starting with 'D' or 'L' |
| SelfVeto.Mothers | selfveto.py:55-66 | a conventional list has five parents when "nue" is in the daughter and four otherwise; a prompt list has four; any other category is the list `[categ]` |
| SelfVeto.CategToMothers | selfveto.py:50-67 | the parent list is `Mothers` of the daughter's two name tests, "anti" in it and "nue" in it: five conventional parents with "nue" and four without, four prompt parents, and any other category is its own single parent |
| SelfVeto.ConvMothersWritten | selfveto.py:52-62 | the exact ordered conventional parent lists, for neutrino and antineutrino daughters, with and without "nue" |
| SelfVeto.PromptMothersWritten | selfveto.py:52-64 | the exact ordered prompt parent lists, for neutrino and antineutrino daughters |
| SelfVeto.MothersConjugate | selfveto.py:52-64 | once the daughter's two name tests are known, the antineutrino's parent list is the element-by-element antiparticle of the neutrino's, in both categories |
| SelfVeto.ConvConjugate | selfveto.py:56-61 | the conventional case of `MothersConjugate`, with and without "nue" |
| SelfVeto.PromptConjugate | selfveto.py:62-64 | the prompt case of `MothersConjugate`: charges flip and "-bar" moves from Lambda0 to D0 |
| SelfVeto.MothersOfAntiDaughter | selfveto.py:52-67 | charge conjugation: the parents of `"anti" + d` are the antiparticles of the parents of `d`, in the same order |
| SelfVeto.MotherCategoriesAgree | selfveto.py:47-67 | every parent of a prompt channel is a prompt category; no parent of a conventional channel is |
| SelfVeto.GetIntegrand | selfveto.py:193-201 | the loop `ys += term * weight_fn` equals the sum, over the parents `categ_to_mothers` lists, of each parent's term times the weight |
| SelfVeto.IntegrandOfAntiDaughter | selfveto.py:193-201 | an antineutrino integrand sums the same terms over the antiparticles of the neutrino channel's parents |
| SelfVeto.SumOverMothers | selfveto.py:193-201 | the integrand has one value per companion sample; non-negative parent terms and a non-negative weight give a non-negative integrand |
| SelfVeto.IntegrandMonotone | selfveto.py:193-201 | a pointwise smaller non-negative weight gives a pointwise smaller integrand, and both integrands are non-negative |
| SelfVeto.ProjectileEntry | selfveto.py:76-80 | each allowed id contributes one or two names, starting with its own |
| SelfVeto.Projectiles | selfveto.py:71-81 | a KeyError names an allowed id that has no name; on success every allowed id has a name |
| SelfVeto.ProjectileList | selfveto.py:71-81 | the appending loop of `projectiles()` computes the specification `Projectiles`, including the KeyError |
| SelfVeto.ProjectilesFailure | selfveto.py:75-80 | `projectiles()` raises exactly when some allowed id has no name, and it reports the first such id |
| SelfVeto.ProjectilesLength | selfveto.py:75-81 | the result has between n and 2n names for n allowed ids |
| SelfVeto.ProjectilesCover | selfveto.py:75-81 | every allowed id's name is in the result |
| SelfVeto.ProjectilesOnlyAllowed | selfveto.py:75-81 | every name in the result belongs to an allowed id or to its antiparticle |
| SelfVeto.PyIndex | selfveto.py:135-143 | a Python index is valid exactly in `[-len, len)`, and a negative index counts from the end |
| SelfVeto.SelectSample | selfveto.py:135-143 | a chosen sample indexes both the grid solution and the depth grid; the choice raises exactly when either is empty, or when an index below the solver's list length is outside the Python range of either list |
| SelfVeto.SelectSampleConsistent | selfveto.py:135-143 | with no index, or one past the solver's list, the last sample is read; an index in range reads that sample; a negative index is not clamped; one below `-n` raises |
| SelfVeto.SelectSampleChecksSolverBound | selfveto.py:138-143 | the fallback bound is the solver's list, so an index past a shorter argument raises IndexError instead of falling back |
| SelfVeto.Overlay | selfveto.py:171 | `res[direct != 0] = direct[direct != 0]`, pointwise |
| SelfVeto.OverlayProperties | selfveto.py:169-171 | overlaying is idempotent; a zero direct solution changes nothing; where the direct solution is non-zero the regenerated value does not matter |
| SelfVeto.Regenerate | selfveto.py:154-165 | the regeneration sum stays on the energy grid; it raises KeyError exactly on a projectile missing from the state or from the PDG id table, and names that projectile |
| SelfVeto.AddParts | selfveto.py:173-176 | adding named sub-solutions keeps the grid length; it raises exactly when some named slice is missing, and the KeyError names one of the missing slices |
| SelfVeto.IsMuonName | selfveto.py:173 | `particle_name[:-1] == 'mu'` holds only for three-character names starting with "mu", and holds for "mu+" and "mu-" |
| SelfVeto.MuonParts | selfveto.py:174 | the three sub-solution names `k_`, `pi_` and `pr_` are distinct |
| SelfVeto.Finish | selfveto.py:167-183 | the tail of `get_solution` raises KeyError on the species itself when the state has no slice for it; otherwise it raises exactly when a muon is missing one of its three sub-solutions, always with a KeyError on a missing slice; a success has one value per energy bin |
| SelfVeto.Solution | selfveto.py:131-183 | a successful `get_solution` has one value per energy bin |
| SelfVeto.MuonPartsAt | selfveto.py:173-176 | adding the muon sub-solutions succeeds only when the `k_`, `pi_` and `pr_` slices are all present, and then adds all three bin by bin |
| SelfVeto.FinishAt | selfveto.py:167-183 | bin by bin: the direct value where it is non-zero, else decay length times regenerated flux; plus the muon sub-solutions for `mu±`; times the magnification factor, and times the bin width when integrating |
| SelfVeto.SolutionIsFinish | selfveto.py:131-165 | a successful `get_solution` selected a valid depth sample, found the decay length, got the projectile list from `projectiles()` and regenerated on the energy grid; the rest is `Finish` on that sample |
| SelfVeto.AddInto | selfveto.py:162-163 | `res += v` in place is the elementwise sum |
| SelfVeto.MulInto | selfveto.py:167 | `res *= v` in place is the elementwise product |
| SelfVeto.OverlayInto | selfveto.py:171 | the masked assignment in place is `Overlay` |
| SelfVeto.GetSolution | selfveto.py:131-183 | the in-place computation on `res`, with all its KeyError and IndexError exits, including the KeyError of `projectiles()`, equals the specification `Solution` |
| SelfVeto.SolutionAt | selfveto.py:145-183 | bin by bin: the direct value where it is non-zero, else decay length times regenerated flux; plus the three muon sub-solutions for `mu±`; times the magnification factor, and times the bin width when integrating |
| SelfVeto.SplitKind | selfveto.py:227 | a successful split gives `(c, d)` with `kind == c + "_" + d` and no underscore in either; otherwise the unpacking raises ValueError |
| SelfVeto.SplitKindRoundTrip | selfveto.py:227 | `kind.split('_')` unpacks into `(c, d)` exactly when `kind` is `c + "_" + d` with no underscore in `c` or `d` |
| SelfVeto.WeightingOfChannel | selfveto.py:233-241 | the weighting is the identity when "numu" is not in the daughter; otherwise it is the prompt branch iff `is_prompt(categ)`; a channel and its antineutrino channel get the same weighting |
| SelfVeto.ChooseWeighting | selfveto.py:233-241 | the choice raises, with the IndexError of `is_prompt`, exactly when "numu" is in the daughter and the category is empty |
| SelfVeto.Weights | selfveto.py:232-254 | the identity weight is 1 everywhere; any other weight plus the reach probability is 1; with reach probabilities in [0, 1] every weight lies in [0, 1] |
| SelfVeto.DepthTermBounded | selfveto.py:288-297 | for one depth sample, on non-decreasing sample energies (that is, `enu` at most the last grid energy), the integral of the weighted integrand, with or without the no-muon factor `pnmarr` in [0, 1], is at most the integral of the identity-weighted one |
| SelfVeto.AccumulateOverDepth | selfveto.py:260-264 | the `+=` loop over depth samples computes the sum of the per-depth integrals |
| SelfVeto.CorrelatedOnlyFluxes | selfveto.py:256-265 | `passed` and `total` are the depth sums; termwise-smaller weighted integrals give `passed <= total`, and non-negative ones give `passed >= 0` |
| SelfVeto.FirstAbove | selfveto.py:278 | the first primary energy above `enu`: every earlier one is at most `enu` |
| SelfVeto.IStart | selfveto.py:278 | `argmax` of an empty mask raises ValueError, and only then |
| SelfVeto.IStartPlacement | selfveto.py:278 | `istart` is in `[0, len(ecrs))`; it is 0 when nothing exceeds `enu`; otherwise it is one before the first energy above `enu`, floored at 0; on an increasing grid every later energy exceeds `enu` |
| SelfVeto.DepthSums | selfveto.py:286-297 | the inner depth loop computes both depth sums |
| SelfVeto.EnergyColumn | selfveto.py:276-300 | the argmax raises ValueError exactly for an empty `ecrs`; otherwise `nums` and `dens` hold, for each primary energy from `istart` on, its depth sum times its primary-flux weight |
| SelfVeto.ColumnBounded | selfveto.py:279-303 | with non-negative flux weights and termwise-smaller weighted integrals, every `nums[j] <= dens[j]`, and on increasing primary energies `trapz(nums, ecrs[istart:]) <= trapz(dens, ecrs[istart:])` |
| SelfVeto.SpeciesIntegrals | selfveto.py:276-303 | one species raises exactly when it has no primary energies |
| SelfVeto.FullModeRaises | selfveto.py:267-305 | the full mode raises exactly when some species has no primary energies |
| SelfVeto.FullModeErrPrefix | selfveto.py:268-303 | once a species raises, the species after it do not matter: the whole loop raises the same error |
| SelfVeto.FullModeStep | selfveto.py:302-303 | each species adds its `trapz(nums, ...)` to `passed` and its `trapz(dens, ...)` to `total` |
| SelfVeto.FullModeStepRaises | selfveto.py:268-303 | a species without primary energies, after species that did not raise, makes the whole loop raise its ValueError |
| SelfVeto.FullModeFluxes | selfveto.py:267-305 | the species loop with its `passed +=` and `total +=` computes `FullMode`, raising at the first species without primary energies |
| SelfVeto.FullModeBounded | selfveto.py:267-305 | on ordered inputs for every species, the full mode's `passed <= total` |
| EngineRegistry.Registry.constructor | selfveto.py:308 | the registry starts empty |
| EngineRegistry.Registry.Lookup | selfveto.py:312-316 | a stored engine is reused and nothing changes; otherwise exactly one fresh engine is built and stored under the key, and the other entries stay as they were |
| EngineRegistry.Registry.PassingRate | selfveto.py:311-319 | the engine is registered even when `get_fluxes` raises; the registry only grows; the result is `num/den` when `fraction` is set, otherwise `num` |
| EngineRegistry.Registry.TotalFlux | selfveto.py:322-329 | the same lookup-or-create, then the second component of `get_fluxes` |
| EngineRegistry.RateOf | selfveto.py:318-319 | `passing_rate` fails with the error of `get_fluxes`; without `fraction` it is `num`; with it, it is finite exactly for a non-zero `den`, and then rate times `den` is `num` |
| EngineRegistry.TotalOf | selfveto.py:329 | `total_flux` fails with the error of `get_fluxes`, and is `den` otherwise |
| EngineRegistry.FractionTimesTotal | selfveto.py:318-329 | rate and total fail together; the fraction is finite exactly when the total is non-zero, and then fraction times total is the passing flux |
| EngineRegistry.RateAndTotal | selfveto.py:308-329 | `passing_rate` then `total_flux` on one configuration build at most one engine, and their results satisfy `FractionTimesTotal` |
| PassRates.Dispatch | nuVeto/external/helper.py:15 | a lookup succeeds exactly when the kind with "anti" deleted is a key, and otherwise raises KeyError on that key |
| PassRates.Passrates | nuVeto/external/helper.py:10-15 | hands out a joint or an uncorrelated rate, never the correlated rate alone; a missing channel raises KeyError on the kind with "anti" deleted |
| PassRates.Corr | nuVeto/external/helper.py:18-21 | hands out only the correlated rate; a missing channel raises KeyError on the kind with "anti" deleted |
| PassRates.Uncorr | nuVeto/external/helper.py:24-29 | hands out only uncorrelated rates; a missing channel raises KeyError on the kind with "anti" deleted |
| PassRates.AcceptedChannels | nuVeto/external/helper.py:10-29 | after "anti" is deleted, `passrates` and `uncorr` accept exactly `conv_numu`, `pr_numu`, `conv_nue` and `pr_nue`; `corr` accepts exactly `conv_numu` and `pr_numu`, which are also exactly the joint entries of `passrates` |
| PassRates.JointPassingRate | nuVeto/external/helper.py:6-7 | with both factor rates in [0, 1], the joint rate is non-negative and at most each factor |
| PassRates.NormaliseAroundUnderscore | nuVeto/external/helper.py:15 | deleting "anti" from `c_d` works on each side of the underscore independently |
| PassRates.NormaliseAntiForm | nuVeto/external/helper.py:15 | `c_antid` and `c_d` normalise to the same key |
| PassRates.AntiFormDispatchesAlike | nuVeto/external/helper.py:10-29 | `passrates`, `corr` and `uncorr` treat a channel and its anti form identically, KeyError included |
| PassRates.KeysAreNormal | nuVeto/external/helper.py:11-14 | every table key is its own normal form |
| PassRates.ChannelAndAntiForm | nuVeto/external/helper.py:10-15 | a table channel and its anti form both find that channel's entry |
| PassRates.ConvNumuChannel | nuVeto/external/helper.py:11 | `conv_numu` and `conv_antinumu` get the joint rate with kind "numu" |
| PassRates.PromptNumuChannel | nuVeto/external/helper.py:12 | `pr_numu` and `pr_antinumu` get the joint rate with kind "charm" |
| PassRates.ConvNueChannel | nuVeto/external/helper.py:13 | `conv_nue` and `conv_antinue` get the uncorrelated rate alone, with kind "nue" |
| PassRates.PromptNueChannel | nuVeto/external/helper.py:14 | `pr_nue` and `pr_antinue` get the uncorrelated rate alone, with kind "charm" |
| PassRates.TablesAgree | nuVeto/external/helper.py:10-29 | `uncorr` is defined exactly where `passrates` is; `corr` is defined exactly for the joint entries, where `uncorr` gives the joint's uncorrelated factor; the nue entries agree with `uncorr`, and `corr` raises KeyError on them |
| PassRates.JointFactorises | nuVeto/external/helper.py:6-7 | the joint rate is the product of what `corr` and `uncorr` hand out for the same channel |
| PyStrings.AntiPrefixKeepsNu | selfveto.py:59 | prefixing "anti" does not change whether a daughter contains "nue" or "numu" |
| PyStrings.JoinSplit | selfveto.py:227 | joining the pieces of `split('_')` gives back the kind |
| PyStrings.SplitJoin | selfveto.py:227 | splitting a join of underscore-free pieces gives back the pieces |
| PyStrings.RemoveAllAround | nuVeto/external/helper.py:15 | `replace('anti', '')` removes occurrences independently on either side of a character that is not in "anti" |
| PyStrings.RemoveAllShrinks | nuVeto/external/helper.py:15 | `replace(t, '')` leaves a string without `t` as it is, and otherwise shortens it by at least `len(t)` |
| PyStrings.SplitPrefix | selfveto.py:227 | a prefix without underscores joins the first piece of what follows it, and the other pieces are unchanged |
| PyStrings.RemoveAllBetween | nuVeto/external/helper.py:15 | an occurrence of a pattern that cannot overlap itself, placed between two strings, is removed and the two sides are treated independently |
| CorrelatedSelfVeto.TablesConsistent | correlated_selfveto.py:56-83 | the three meson tables cover the same mesons as `meson_list`; every `r` lies in (0, 1); masses, lifetimes and energy-loss coefficients are positive |
| CorrelatedSelfVeto.FindNearest | correlated_selfveto.py:117-118 | `searchsorted(side="left")` on a sorted array: every entry before the result is below the value, and every entry from it on is at or above it |
| CorrelatedSelfVeto.FindNearestUnique | correlated_selfveto.py:117-118 | the insertion point is the only index that splits the array in this way |
| CorrelatedSelfVeto.FindNearestPastEnd | correlated_selfveto.py:117-118 | the result is `len(array)` exactly when the value is above every entry |
| CorrelatedSelfVeto.MinimumMuonBrotherEnergy | correlated_selfveto.py:120-128 | an unknown meson raises; otherwise the result `x` satisfies `x (1 - r) = E r` and is non-negative for `E >= 0` |
| CorrelatedSelfVeto.MinimumMesonParentEnergyAsWritten | correlated_selfveto.py:130-138 | as written, every call raises NameError |
| CorrelatedSelfVeto.ParentEnergyAsWrittenRaises | correlated_selfveto.py:130-138 | for "kaon" the brother edge is defined, yet the parent edge as written raises |
| CorrelatedSelfVeto.MinimumMesonParentEnergy | correlated_selfveto.py:130-138 | corrected: an unknown meson raises; otherwise the result `p` satisfies `p (1 - r) = E` |
| CorrelatedSelfVeto.ParentEnergyIsNeutrinoPlusBrother | correlated_selfveto.py:120-138 | both edges are defined for the same mesons, and parent edge = neutrino energy + brother edge, so it is at least `E` |
| CorrelatedSelfVeto.DecayProbability | correlated_selfveto.py:140-144 | an unknown meson raises; a zero energy raises ZeroDivisionError; otherwise the result is defined |
| CorrelatedSelfVeto.DecayProbabilityBounds | correlated_selfveto.py:143-144 | for a positive energy the exponent is at most 0, and it decreases as the distance grows |
| CorrelatedSelfVeto.NoInteractionProbability | correlated_selfveto.py:146-149 | an unknown meson raises; a zero cross-section gives a non-finite exponent; for a non-negative column density and a positive cross-section the exponent is at most 0 |
| CorrelatedSelfVeto.MeanMuonDistance | correlated_selfveto.py:151-158 | below the threshold the range is 0 whatever the medium; at or above it an unknown medium raises |
| CorrelatedSelfVeto.MeanMuonDistanceNonNegative | correlated_selfveto.py:151-158 | for a known medium and `0 <= E_min <= E`, the log argument is at least 1 and `b > 0`, so the range is never negative |
| CorrelatedSelfVeto.Arange | correlated_selfveto.py:108 | `arange` holds exactly the points `start + k step` below `stop` |
| CorrelatedSelfVeto.ArangeSorted | correlated_selfveto.py:108 | the depth grid is increasing, so `FindNearest` may search it |
| CorrelatedSelfVeto.CorrelatedCalculator.constructor | correlated_selfveto.py:84-98 | a new calculator has no solver run and no relative contributions |
| CorrelatedSelfVeto.CorrelatedCalculator.RunMCLayeredMode | correlated_selfveto.py:100-109 | keeps the solver run and the depth grid `arange(1, max_X, max_X / layers)`, and leaves the contributions alone |
| CorrelatedSelfVeto.CorrelatedCalculator.DepthIndex | correlated_selfveto.py:112 | the depth index is at most the grid length |
| CorrelatedSelfVeto.CorrelatedCalculator.UpdateRelativeContributions | correlated_selfveto.py:111-115 | the pion and kaon shares become the elementwise quotients of their solutions at the nearest depth by the total at the first depth sample (`grid_idx=0`), on the energy grid |
| CorrelatedSelfVeto.CorrelatedCalculator.NeutrinoFromParentProbability | correlated_selfveto.py:174-182 | the shares are refreshed first, even when the meson is then rejected; the result is the meson's share at the grid point, or an error |
| CorrelatedSelfVeto.MesonShare | correlated_selfveto.py:177-182 | only "pion" and "kaon" are accepted, and only at an index inside the share array |
| CorrelatedSelfVeto.ShareAboveGridRaises | correlated_selfveto.py:176-182 | an energy above every cross-section grid point raises IndexError for either meson, whenever the share arrays are no longer than that grid |
| CorrelatedSelfVeto.CorrelatedCalculator.ParentProductionProbability | correlated_selfveto.py:184-191 | only "pion" and "kaon" succeed, and only at an index inside the energy grid; the result is the `pi-` or `K-` flux at the first depth sample there |
| CorrelatedSelfVeto.CorrelatedCalculator.CorrelatedProbability | correlated_selfveto.py:193-217 | runs the solver and leaves the pion and kaon shares as they were; then sums, over `meson_list` in order, the value and error estimate of each meson's triple integral over its box |
| CorrelatedSelfVeto.IntegrationBox | correlated_selfveto.py:208-216 | the lower muon-energy edge is `MinimumMuonBrotherEnergy(Enu, meson)`, non-negative for `Enu >= 0`; the depth and height ranges are non-empty |
| CorrelatedSelfVeto.QuadSumNonNegative | correlated_selfveto.py:199-217 | integrals that are non-negative over every box add up to a non-negative value, and likewise for the error estimate |
| CorrelatedSelfVeto.BoxMatchesKinematics | correlated_selfveto.py:201-216 | each box's lower muon-energy edge is `MinimumMuonBrotherEnergy(Enu, meson)`; on the box the decay kernel is defined and at most one when `Enu > 0` |

## Left out

- Numerics are not modelled:
  - `tplquad`, the interpolators, `logspace`, `exp`, `log` and `stats.norm.cdf`;
  - their values enter as parameters (`term`, `numTerms`, `tplquad`, `xs`) or stay symbolic (`ExpProb`, `Distance`);
  - `trapz` is computed on exact reals, without floating-point rounding.
- SelfVeto.DepthTermBounded: the bound needs non-decreasing sample energies. `esamp = logspace(log10(enu), log10(e_grid[-1]), ...)` runs downward when `enu` is above the last grid energy. There `trapz` is the negated integral, and the bound on `passed` and `total` is not claimed.
- SelfVeto.SpeciesIntegrals: an `ecrs` of exactly one energy makes the `interp1d` of the no-muon probabilities raise ValueError in the program; the model gives it a contribution instead. `ecrs` has `10 * accuracy` points, so one point does not arise for an integer `accuracy`.
- SelfVeto.FullModeFluxes: each species' per-depth integrals (`numTerms`, `denTerms`) are given numbers rather than recomputed from `get_integrand`. `DepthTermBounded` proves, for one depth sample, the termwise bound that `SpeciesOrdered` assumes of them.
- `get_dNdEE`, `get_rescale_phi`, `prob_nomu` and `grid_sol`:
  - only their part in the integrand's structure is modelled, not their values;
  - `functools32.lru_cache` on `grid_sol` and `prob_nomu` is a library decorator and is not modelled.
- The MCEq solver is not modelled:
  - it is represented by `Cascade` and `Solver`, which hold its grids, slices, yield matrices, cross-sections and decay lengths as given data;
  - `SelfVeto.__init__`, which sets up the solver, the geometry and the depth grid, is not modelled.
- `MuonProb`, `Geometry`, `ParticleProperties`, `centers`, `amu`, `Units` and `pm` from `utils` and the flux models are not part of this model.
- The reading of `data/d/D.npz` (file I/O) is left out; the prompt reach probabilities are a parameter.
- `nuVeto.external.selfveto`, which `helper.py` calls, is not part of this model. Its rate functions are parameters.
- `GetAirColumnDensity`, `GetIceColumnDensity` and `MuonReachProbability` are left out; they are pure numerics on solver and geometry functions.
- tests.py, the example plotting script, matplotlib and the `__main__` blocks are left out.
- Python `float` dictionary keys: `EngineKey.cosTheta` is a real, so NaN and `-0.0` key behaviour is not modelled.
- The module-level `SVS` dictionary is a `Registry` object passed to the calls explicitly.
- EngineRegistry.Registry.PassingRate:
  - `get_fluxes` is a function of the engine's configuration and the query;
  - the int-typed `0/0` in Python, reachable when no primary or depth sample is summed, is not modelled separately: every zero total is `NonFinite`.
- CorrelatedSelfVeto.Arange: numpy computes the length in floating point. The model uses exact `ceil((stop - start) / step)`.
- CorrelatedSelfVeto.CorrelatedCalculator.RunMCLayeredMode: assumes `number_of_layers > 0` and a positive maximal depth.
- CorrelatedSelfVeto.CorrelatedCalculator.UpdateRelativeContributions: requires a solver run. Calling it before `RunMCLayeredMode` raises AttributeError in Python, and that case is not modelled.
- CorrelatedSelfVeto.CorrelatedCalculator.NeutrinoFromParentProbability and ParentProductionProbability: both require a solver run, as above.
  - `NeutrinoFromParentProbability` ignores `costh` and passes `h` on to `UpdateRelativeContributions`.
  - `ParentProductionProbability` ignores both `costh` and `h`.
- CorrelatedSelfVeto.CorrelatedCalculator.CorrelatedProbability:
  - the ice column density is computed by the source but unused by the active kernel, and is left out;
  - the integral is a parameter.
- CorrelatedSelfVeto.FindNearest requires a sorted array, as `searchsorted` does. Every grid it is applied to is increasing.
- The `interp1d` range errors of the cross-section interpolants are not modelled.
- SelfVeto.Solution: `e_grid ** mag` is given as the vector `magFactor`. The names of the solution slices stand for `pname2pref` lookups.

## Findings

| source | as written | input that shows it | evidently intended | confidence | as-written member | corrected member |
|---|---|---|---|---|---|---|
| correlated_selfveto.py:135 | the guard tests `meson in r_dict`, a bare name defined nowhere in the module, so the call raises NameError | `MinimumMesonParentEnergy(1.0, "kaon")` | test `self.ParticleProperties.r_dict`, as `MinimumMuonBrotherEnergy` does, and return `E / (1 - r)` | not executed | CorrelatedSelfVeto.ParentEnergyAsWrittenRaises | CorrelatedSelfVeto.ParentEnergyIsNeutrinoPlusBrother |
