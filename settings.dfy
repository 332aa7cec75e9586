/** Validation of a run's sanity thresholds (Run.check_inputs), before any
    work starts. The configuration is a dictionary of loosely typed values. */
module Settings {
  import opened Wrappers
  import opened Sanity

  /** A configuration value as the check sees it: an int, a tuple (of
      numbers), or anything else (a list, a string, a float, ...). */
  datatype Setting = IntSetting(i: int) | TupleSetting(items: seq<real>) | OtherSetting

  /** Which ValueError the check raises, and for which key. */
  datatype ConfigError =
    | Missing(key: string)
    | NotInt(key: string)
    | NotPositive(key: string)
    | NotTuple(key: string)
    | WrongLength(key: string)

  /** The validated thresholds: the percentage limits and the uncertainty
      multiplier sigma used by the neighbour query. */
  datatype Thresholds = Thresholds(limits: Limits, sigma: int)

  type Config = map<string, Setting>

  function CheckFlux(c: Config): Result<int, ConfigError>
  {
    if "flux" !in c then Failure(Missing("flux"))
    else if !c["flux"].IntSetting? then Failure(NotInt("flux"))
    else Success(c["flux"].i)
  }

  function CheckSigma(c: Config): Result<int, ConfigError>
  {
    if "uncertainty_sigma" !in c then Failure(Missing("uncertainty_sigma"))
    else if !c["uncertainty_sigma"].IntSetting? then Failure(NotInt("uncertainty_sigma"))
    else if c["uncertainty_sigma"].i <= 0 then Failure(NotPositive("uncertainty_sigma"))
    else Success(c["uncertainty_sigma"].i)
  }

  /** A two-element tuple, unpacked as `(min, max)`. */
  function CheckExtent(c: Config, key: string): Result<Extent, ConfigError>
  {
    if key !in c then Failure(Missing(key))
    else if !c[key].TupleSetting? then Failure(NotTuple(key))
    else if |c[key].items| != 2 then Failure(WrongLength(key))
    else Success(Extent(c[key].items[0], c[key].items[1]))
  }

  predicate IsPair(c: Config, key: string)
  {
    key in c && c[key].TupleSetting? && |c[key].items| == 2
  }

  /** The error a key that is not a two-element tuple raises: missing, not
      a tuple, or a tuple of another length. */
  function PairError(c: Config, key: string): ConfigError
  {
    if key !in c then Missing(key)
    else if !c[key].TupleSetting? then NotTuple(key)
    else WrongLength(key)
  }

  predicate FluxIsInt(c: Config)
  {
    "flux" in c && c["flux"].IntSetting?
  }

  predicate SigmaIsPositiveInt(c: Config)
  {
    "uncertainty_sigma" in c && c["uncertainty_sigma"].IntSetting? && c["uncertainty_sigma"].i > 0
  }

  /** Run.check_inputs: flux must be an int (of any sign), sigma a positive
      int, and both extents tuples of exactly two elements; the first failing
      key, in the order flux, uncertainty_sigma, spatial_extent,
      spectral_extent, names the error. */
  function CheckInputs(c: Config): (r: Result<Thresholds, ConfigError>)
    ensures r.Success? <==>
      FluxIsInt(c) && SigmaIsPositiveInt(c) && IsPair(c, "spatial_extent") && IsPair(c, "spectral_extent")
    ensures r.Success? ==>
      && r.value.limits.flux == c["flux"].i
      && r.value.sigma == c["uncertainty_sigma"].i
      && r.value.limits.spatial == Extent(c["spatial_extent"].items[0], c["spatial_extent"].items[1])
      && r.value.limits.spectral == Extent(c["spectral_extent"].items[0], c["spectral_extent"].items[1])
    // the first failing key, in order, names the error and its kind
    ensures !FluxIsInt(c) ==> r == Failure(if "flux" !in c then Missing("flux") else NotInt("flux"))
    ensures FluxIsInt(c) && !SigmaIsPositiveInt(c) ==>
      r == Failure(if "uncertainty_sigma" !in c then Missing("uncertainty_sigma")
                   else if !c["uncertainty_sigma"].IntSetting? then NotInt("uncertainty_sigma")
                   else NotPositive("uncertainty_sigma"))
    ensures FluxIsInt(c) && SigmaIsPositiveInt(c) && !IsPair(c, "spatial_extent") ==>
      r == Failure(PairError(c, "spatial_extent"))
    ensures FluxIsInt(c) && SigmaIsPositiveInt(c) && IsPair(c, "spatial_extent") && !IsPair(c, "spectral_extent") ==>
      r == Failure(PairError(c, "spectral_extent"))
  {
    match CheckFlux(c)
    case Failure(e) => Failure(e)
    case Success(flux) =>
      match CheckSigma(c)
      case Failure(e) => Failure(e)
      case Success(sigma) =>
        match CheckExtent(c, "spatial_extent")
        case Failure(e) => Failure(e)
        case Success(spatial) =>
          match CheckExtent(c, "spectral_extent")
          case Failure(e) => Failure(e)
          case Success(spectral) => Success(Thresholds(Limits(flux, spatial, spectral), sigma))
  }

  /** The thresholds the project's own test passes to a run are accepted as they are. */
  lemma AcceptsTestThresholds(c: Config)
    requires c == map["flux" := IntSetting(5), "spatial_extent" := TupleSetting([5.0, 5.0]),
                      "spectral_extent" := TupleSetting([5.0, 5.0]), "uncertainty_sigma" := IntSetting(5)]
    ensures CheckInputs(c) == Success(Thresholds(Limits(5, Extent(5.0, 5.0), Extent(5.0, 5.0)), 5))
  {
  }

  /** The sign of the flux threshold is not checked, while sigma must be positive. */
  lemma FluxSignIsNotChecked(c: Config, flux: int)
    requires IsPair(c, "spatial_extent") && IsPair(c, "spectral_extent")
    requires "uncertainty_sigma" in c && c["uncertainty_sigma"] == IntSetting(1)
    ensures CheckInputs(c["flux" := IntSetting(flux)]).Success?
    ensures CheckInputs(c["flux" := IntSetting(flux)]["uncertainty_sigma" := IntSetting(-flux * flux)])
            == Failure(NotPositive("uncertainty_sigma"))
  {
  }

  /** Threshold validation of the first version (match_merge_detections in
      sofiax/sofiax/merge.py): flux and the two extents are checked as above,
      uncertainty_sigma not at all. */
  function LegacyCheckInputs(c: Config): (r: Result<Limits, ConfigError>)
    ensures r.Success? <==> FluxIsInt(c) && IsPair(c, "spatial_extent") && IsPair(c, "spectral_extent")
    ensures r.Success? ==> r.value.flux == c["flux"].i
    ensures r.Failure? ==> r.error.key != "uncertainty_sigma"
    ensures !FluxIsInt(c) ==> r == Failure(if "flux" !in c then Missing("flux") else NotInt("flux"))
    ensures FluxIsInt(c) && !IsPair(c, "spatial_extent") ==> r == Failure(PairError(c, "spatial_extent"))
    ensures FluxIsInt(c) && IsPair(c, "spatial_extent") && !IsPair(c, "spectral_extent") ==>
      r == Failure(PairError(c, "spectral_extent"))
  {
    match CheckFlux(c)
    case Failure(e) => Failure(e)
    case Success(flux) =>
      match CheckExtent(c, "spatial_extent")
      case Failure(e) => Failure(e)
      case Success(spatial) =>
        match CheckExtent(c, "spectral_extent")
        case Failure(e) => Failure(e)
        case Success(spectral) => Success(Limits(flux, spatial, spectral))
  }

  /** Whatever the current check accepts, the first version accepts with the
      same limits; the converse fails only on uncertainty_sigma. */
  lemma CheckInputsRefinesLegacy(c: Config)
    ensures CheckInputs(c).Success? ==> LegacyCheckInputs(c) == Success(CheckInputs(c).value.limits)
    ensures LegacyCheckInputs(c).Success? && CheckInputs(c).Failure? ==>
      CheckInputs(c).error.key == "uncertainty_sigma"
  {
  }
}
