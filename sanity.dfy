/** The sanity check that decides whether a catalogued detection and a new
    candidate describe the same source: percentage differences of flux,
    spatial extent (ell_maj, ell_min) and spectral extent (w20, w50) are
    compared with the run's thresholds, in that order, and the first
    difference strictly above its threshold fails the check. */
module Sanity {
  import opened Wrappers
  import opened Calcs

  /** A threshold pair as the configuration writes it: `(min, max)`. */
  datatype Extent = Extent(min: real, max: real)

  /** The percentage thresholds of a run. */
  datatype Limits = Limits(flux: int, spatial: Extent, spectral: Extent)

  /** The five compared quantities, in the order the source tests them. */
  datatype Quantity = Flux | EllMaj | EllMin | W20 | W50

  /** Outcome of a sanity check. `DivisionByZero` stands for the arithmetic
      error the source raises when both values of a pair are zero. */
  datatype Verdict = Pass | Exceeds(quantity: Quantity) | DivisionByZero

  type Pair = (real, real)

  /** `(max1, max2, min1, min2)`: (ell_maj, ell_maj, ell_min, ell_min) or
      (w20, w20, w50, w50) of the candidate and the catalogued detection. */
  type Quad = (real, real, real, real)

  function Rank(q: Quantity): nat
  {
    match q
    case Flux => 0
    case EllMaj => 1
    case EllMin => 2
    case W20 => 3
    case W50 => 4
  }

  /** Both differences of one extent are computed before either is compared,
      so a zero pair there raises even when its partner already exceeds. */
  function Stage(q: Quantity): nat
  {
    match q
    case Flux => 0
    case EllMaj => 1
    case EllMin => 1
    case W20 => 2
    case W50 => 2
  }

  /** ell_maj and w20 are held to the second (max) element of their threshold
      pair, ell_min and w50 to the first (min). */
  function Limit(q: Quantity, limits: Limits): real
  {
    match q
    case Flux => limits.flux as real
    case EllMaj => limits.spatial.max
    case EllMin => limits.spatial.min
    case W20 => limits.spectral.max
    case W50 => limits.spectral.min
  }

  function Operands(q: Quantity, flux: Pair, spatial: Quad, spectral: Quad): Pair
  {
    match q
    case Flux => flux
    case EllMaj => (spatial.0, spatial.1)
    case EllMin => (spatial.2, spatial.3)
    case W20 => (spectral.0, spectral.1)
    case W50 => (spectral.2, spectral.3)
  }

  /** The symmetric percentage difference, or None where the source divides by zero. */
  function Difference(a: real, b: real): Option<real>
  {
    if Abs(a) + Abs(b) == 0.0 then None else Some(PercentageDifference(a, b))
  }

  /** The older flux formula: the mean magnitude is taken of the second value
      twice, `(|b| + |b|) / 2`. */
  function SecondOperandDifference(a: real, b: real): Option<real>
  {
    if Abs(b) + Abs(b) == 0.0 then None
    else Some(Abs(a - b) * 100.0 / ((Abs(b) + Abs(b)) / 2.0))
  }

  predicate Within(d: Option<real>, limit: real)
  {
    d.Some? && d.value <= limit
  }

  predicate Beyond(d: Option<real>, limit: real)
  {
    d.Some? && d.value > limit
  }

  /** The five differences, selected by quantity. */
  function Select(q: Quantity, f: Option<real>, maj: Option<real>, min: Option<real>,
                  w20: Option<real>, w50: Option<real>): Option<real>
  {
    match q
    case Flux => f
    case EllMaj => maj
    case EllMin => min
    case W20 => w20
    case W50 => w50
  }

  /** The chain of comparisons shared by every version of the check. */
  function Judge(f: Option<real>, maj: Option<real>, min: Option<real>,
                 w20: Option<real>, w50: Option<real>, limits: Limits): Verdict
  {
    if f.None? then DivisionByZero
    else if f.value > limits.flux as real then Exceeds(Flux)
    else if maj.None? || min.None? then DivisionByZero
    else if maj.value > limits.spatial.max then Exceeds(EllMaj)
    else if min.value > limits.spatial.min then Exceeds(EllMin)
    else if w20.None? || w50.None? then DivisionByZero
    else if w20.value > limits.spectral.max then Exceeds(W20)
    else if w50.value > limits.spectral.min then Exceeds(W50)
    else Pass
  }

  /** What the chain decides, stated without its order of tests: it passes
      exactly when every difference is defined and within its threshold (a
      difference equal to its threshold passes); it names the first quantity
      beyond its threshold; it raises only where a difference is undefined and
      every earlier stage was within. */
  lemma {:induction false} JudgeVerdict(f: Option<real>, maj: Option<real>, min: Option<real>,
                                        w20: Option<real>, w50: Option<real>, limits: Limits)
    ensures var v := Judge(f, maj, min, w20, w50, limits);
      && (v == Pass <==> forall q: Quantity :: Within(Select(q, f, maj, min, w20, w50), Limit(q, limits)))
      && (v.Exceeds? ==>
            && Beyond(Select(v.quantity, f, maj, min, w20, w50), Limit(v.quantity, limits))
            && (forall q: Quantity :: Rank(q) < Rank(v.quantity) ==> Within(Select(q, f, maj, min, w20, w50), Limit(q, limits)))
            && (forall q: Quantity :: Stage(q) == Stage(v.quantity) ==> Select(q, f, maj, min, w20, w50).Some?))
      && (v == DivisionByZero ==>
            exists q: Quantity :: Select(q, f, maj, min, w20, w50).None? &&
              forall p: Quantity :: Stage(p) < Stage(q) ==> Within(Select(p, f, maj, min, w20, w50), Limit(p, limits)))
  {
    var v := Judge(f, maj, min, w20, w50, limits);
    if v == Pass {
      forall q: Quantity ensures Within(Select(q, f, maj, min, w20, w50), Limit(q, limits)) {
        match q
        case Flux =>
        case EllMaj =>
        case EllMin =>
        case W20 =>
        case W50 =>
      }
    } else {
      // a quantity that is not within its threshold
      if f.None? || f.value > limits.flux as real {
        assert !Within(Select(Flux, f, maj, min, w20, w50), Limit(Flux, limits));
      } else if maj.None? || maj.value > limits.spatial.max {
        assert !Within(Select(EllMaj, f, maj, min, w20, w50), Limit(EllMaj, limits));
      } else if min.None? || min.value > limits.spatial.min {
        assert !Within(Select(EllMin, f, maj, min, w20, w50), Limit(EllMin, limits));
      } else if w20.None? || w20.value > limits.spectral.max {
        assert !Within(Select(W20, f, maj, min, w20, w50), Limit(W20, limits));
      } else {
        assert !Within(Select(W50, f, maj, min, w20, w50), Limit(W50, limits));
      }
      if v == DivisionByZero {
        if f.None? {
          assert Select(Flux, f, maj, min, w20, w50).None?;
        } else if maj.None? || min.None? {
          var q := if maj.None? then EllMaj else EllMin;
          assert Select(q, f, maj, min, w20, w50).None?;
          assert forall p: Quantity :: Stage(p) < Stage(q) ==> p == Flux;
        } else {
          var q := if w20.None? then W20 else W50;
          assert Select(q, f, maj, min, w20, w50).None?;
          assert forall p: Quantity :: Stage(p) < Stage(q) ==> p == Flux || p == EllMaj || p == EllMin;
        }
      }
    }
  }

  /** The two measured values behind each quantity's difference. */
  function Measured(q: Quantity, flux: Pair, spatial: Quad, spectral: Quad): Option<real>
  {
    var (a, b) := Operands(q, flux, spatial, spectral);
    Difference(a, b)
  }

  /** sanity_check of sofiax/merge.py: every difference is symmetric. */
  function SanityCheck(flux: Pair, spatial: Quad, spectral: Quad, limits: Limits): (v: Verdict)
    ensures v == Pass <==> forall q: Quantity :: Within(Measured(q, flux, spatial, spectral), Limit(q, limits))
    ensures v.Exceeds? ==>
      && Beyond(Measured(v.quantity, flux, spatial, spectral), Limit(v.quantity, limits))
      && (forall q: Quantity :: Rank(q) < Rank(v.quantity) ==> Within(Measured(q, flux, spatial, spectral), Limit(q, limits)))
      && (forall q: Quantity :: Stage(q) == Stage(v.quantity) ==> Measured(q, flux, spatial, spectral).Some?)
    ensures v == DivisionByZero ==>
      exists q: Quantity :: Measured(q, flux, spatial, spectral).None? &&
        forall p: Quantity :: Stage(p) < Stage(q) ==> Within(Measured(p, flux, spatial, spectral), Limit(p, limits))
  {
    var f := Difference(flux.0, flux.1);
    var maj, min := Difference(spatial.0, spatial.1), Difference(spatial.2, spatial.3);
    var w20, w50 := Difference(spectral.0, spectral.1), Difference(spectral.2, spectral.3);
    JudgeVerdict(f, maj, min, w20, w50, limits);
    SelectIsMeasured(flux, spatial, spectral);
    Judge(f, maj, min, w20, w50, limits)
  }

  /** The differences the check computes are the measured ones. */
  lemma SelectIsMeasured(flux: Pair, spatial: Quad, spectral: Quad)
    ensures forall q: Quantity ::
      Select(q, Difference(flux.0, flux.1), Difference(spatial.0, spatial.1), Difference(spatial.2, spatial.3),
             Difference(spectral.0, spectral.1), Difference(spectral.2, spectral.3))
      == Measured(q, flux, spatial, spectral)
  {
    forall q: Quantity
      ensures Select(q, Difference(flux.0, flux.1), Difference(spatial.0, spatial.1), Difference(spatial.2, spatial.3),
                     Difference(spectral.0, spectral.1), Difference(spectral.2, spectral.3))
              == Measured(q, flux, spatial, spectral)
    {
      match q
      case Flux =>
      case EllMaj =>
      case EllMin =>
      case W20 =>
      case W50 =>
    }
  }

  /** Swapping candidate and catalogued detection in every pair gives the same
      verdict: the check does not depend on which of the two is the candidate. */
  lemma {:induction false} SanityCheckSymmetric(flux: Pair, spatial: Quad, spectral: Quad, limits: Limits)
    ensures SanityCheck(flux, spatial, spectral, limits)
         == SanityCheck((flux.1, flux.0), (spatial.1, spatial.0, spatial.3, spatial.2),
                        (spectral.1, spectral.0, spectral.3, spectral.2), limits)
  {
    DifferenceSymmetric(flux.0, flux.1);
    DifferenceSymmetric(spatial.0, spatial.1);
    DifferenceSymmetric(spatial.2, spatial.3);
    DifferenceSymmetric(spectral.0, spectral.1);
    DifferenceSymmetric(spectral.2, spectral.3);
  }

  lemma DifferenceSymmetric(a: real, b: real)
    ensures Difference(a, b) == Difference(b, a)
  {
    if Abs(a) + Abs(b) != 0.0 {
      PercentageDifferenceSymmetric(a, b);
    }
  }

  /** A difference exactly equal to its threshold passes; only a strictly
      greater one fails. */
  lemma ThresholdIsInclusive(flux: Pair, spatial: Quad, spectral: Quad, limits: Limits)
    requires forall q: Quantity :: Measured(q, flux, spatial, spectral) == Some(Limit(q, limits))
    ensures SanityCheck(flux, spatial, spectral, limits) == Pass
  {
  }

  /** Fluxes 100 and 90 differ by 200/19 (about 10.53) per cent: a flux
      threshold of 11 passes them and a threshold of 10 fails them. */
  lemma FluxToleranceExample(spatial: Quad, spectral: Quad, extent: Extent)
    requires spatial == (5.0, 5.0, 2.0, 2.0) && spectral == (20.0, 20.0, 10.0, 10.0)
    requires extent.min >= 0.0 && extent.max >= 0.0
    ensures Difference(100.0, 90.0) == Some(200.0 / 19.0)
    ensures SanityCheck((100.0, 90.0), spatial, spectral, Limits(11, extent, extent)) == Pass
    ensures SanityCheck((100.0, 90.0), spatial, spectral, Limits(10, extent, extent)) == Exceeds(Flux)
  {
    assert PercentageDifference(100.0, 90.0) == 200.0 / 19.0;
  }

  /** The differences of the first version: the flux one relative to the
      second flux alone, the others symmetric. */
  function LegacyMeasured(q: Quantity, flux: Pair, spatial: Quad, spectral: Quad): Option<real>
  {
    if q == Flux then SecondOperandDifference(flux.0, flux.1) else Measured(q, flux, spatial, spectral)
  }

  /** sanity_check of the first version (sofiax/sofiax/merge.py): the flux
      difference is relative to the second flux alone; otherwise the
      verdict is chosen as in SanityCheck. */
  function LegacySanityCheck(flux: Pair, spatial: Quad, spectral: Quad, limits: Limits): (v: Verdict)
    ensures flux.1 == 0.0 ==> v == DivisionByZero
    ensures v == Pass <==>
      && flux.1 != 0.0
      && Abs(flux.0 - flux.1) * 100.0 / Abs(flux.1) <= limits.flux as real
      && forall q: Quantity :: q != Flux ==> Within(Measured(q, flux, spatial, spectral), Limit(q, limits))
    ensures v.Exceeds? ==>
      && Beyond(LegacyMeasured(v.quantity, flux, spatial, spectral), Limit(v.quantity, limits))
      && (forall q: Quantity :: Rank(q) < Rank(v.quantity) ==>
            Within(LegacyMeasured(q, flux, spatial, spectral), Limit(q, limits)))
      && (forall q: Quantity :: Stage(q) == Stage(v.quantity) ==> LegacyMeasured(q, flux, spatial, spectral).Some?)
    ensures v == DivisionByZero ==>
      exists q: Quantity :: LegacyMeasured(q, flux, spatial, spectral).None? &&
        forall p: Quantity :: Stage(p) < Stage(q) ==> Within(LegacyMeasured(p, flux, spatial, spectral), Limit(p, limits))
  {
    var f := SecondOperandDifference(flux.0, flux.1);
    var maj, min := Difference(spatial.0, spatial.1), Difference(spatial.2, spatial.3);
    var w20, w50 := Difference(spectral.0, spectral.1), Difference(spectral.2, spectral.3);
    JudgeVerdict(f, maj, min, w20, w50, limits);
    SelectIsLegacyMeasured(flux, spatial, spectral);
    assert flux.1 != 0.0 ==> (Abs(flux.1) + Abs(flux.1)) / 2.0 == Abs(flux.1);
    Judge(f, maj, min, w20, w50, limits)
  }

  /** The differences the first version computes are its measured ones. */
  lemma SelectIsLegacyMeasured(flux: Pair, spatial: Quad, spectral: Quad)
    ensures forall q: Quantity ::
      Select(q, SecondOperandDifference(flux.0, flux.1), Difference(spatial.0, spatial.1),
             Difference(spatial.2, spatial.3), Difference(spectral.0, spectral.1), Difference(spectral.2, spectral.3))
      == LegacyMeasured(q, flux, spatial, spectral)
  {
    forall q: Quantity
      ensures Select(q, SecondOperandDifference(flux.0, flux.1), Difference(spatial.0, spatial.1),
                     Difference(spatial.2, spatial.3), Difference(spectral.0, spectral.1),
                     Difference(spectral.2, spectral.3))
              == LegacyMeasured(q, flux, spatial, spectral)
    {
      match q
      case Flux =>
      case EllMaj =>
      case EllMin =>
      case W20 =>
      case W50 =>
    }
  }

  /** The first version's flux test depends on which detection is the
      candidate: with fluxes 100 and 90 and a 10 per cent threshold it fails
      one way round (100/9 per cent) and passes the other (exactly 10). */
  lemma LegacyFluxIsOrderDependent()
    ensures var spatial, spectral, limits := (5.0, 5.0, 2.0, 2.0), (20.0, 20.0, 10.0, 10.0),
                                             Limits(10, Extent(5.0, 5.0), Extent(5.0, 5.0));
      && LegacySanityCheck((100.0, 90.0), spatial, spectral, limits) == Exceeds(Flux)
      && LegacySanityCheck((90.0, 100.0), spatial, spectral, limits) == Pass
  {
    var spatial, spectral, limits := (5.0, 5.0, 2.0, 2.0), (20.0, 20.0, 10.0, 10.0),
                                      Limits(10, Extent(5.0, 5.0), Extent(5.0, 5.0));
    assert SecondOperandDifference(100.0, 90.0) == Some(1000.0 / 90.0);
    assert SecondOperandDifference(90.0, 100.0) == Some(10.0);
    assert Difference(5.0, 5.0) == Some(0.0);
    assert Difference(2.0, 2.0) == Some(0.0);
    assert Difference(20.0, 20.0) == Some(0.0);
    assert Difference(10.0, 10.0) == Some(0.0);
  }
}
