/** The comparison of two stored detections offered by the review web
    application (Detection.sanity_check and Detection.is_match of
    sofiax/web/sofiax_web/sofiax_detections/models.py). Both refuse to compare
    a detection with itself or with one of another run. */
module Web {
  import opened Wrappers
  import opened Records
  import opened Calcs
  import opened Sanity
  import opened Proximity

  /** A stored detection as the web application sees it. */
  datatype WebRecord = WebRecord(id: nat, runId: int, detection: Detection)

  /** The ValueError raised for the same detection or a detection of another
      run, the ZeroDivisionError a comparison can raise, and the TypeError of
      dividing a float by a Decimal. */
  datatype WebError = SameDetection | DifferentRun | ZeroDivision | TypeMismatch

  function Guard(self: WebRecord, other: WebRecord): (e: Option<WebError>)
    ensures e.None? <==> self.id != other.id && self.runId == other.runId
  {
    if self.id == other.id then Some(SameDetection)
    else if self.runId != other.runId then Some(DifferentRun)
    else None
  }

  /** Detection.sanity_check: the first quantity whose difference exceeds its
      threshold, in the order flux, ell_maj, ell_min, w20, w50, or Pass; the
      flux difference is taken relative to the other detection's flux alone. */
  function WebSanityCheck(self: WebRecord, other: WebRecord, limits: Limits): (r: Result<Verdict, WebError>)
    ensures self.id == other.id ==> r == Failure(SameDetection)
    ensures self.id != other.id && self.runId != other.runId ==> r == Failure(DifferentRun)
    ensures r.Success? ==> !r.value.DivisionByZero?
    ensures Guard(self, other).None? && other.detection.fSum == 0.0 ==> r == Failure(ZeroDivision)
    ensures r == Success(Pass) <==>
      && Guard(self, other).None?
      && other.detection.fSum != 0.0
      && Abs(self.detection.fSum - other.detection.fSum) * 100.0 / Abs(other.detection.fSum) <= limits.flux as real
      && forall q: Quantity :: q != Flux ==>
           Within(Measured(q, WebFlux(self, other), WebSpatial(self, other), WebSpectral(self, other)), Limit(q, limits))
    // the quantity reported is the first beyond its threshold
    ensures r.Success? && r.value.Exceeds? ==>
      var (flux, spatial, spectral) := (WebFlux(self, other), WebSpatial(self, other), WebSpectral(self, other));
      && Beyond(LegacyMeasured(r.value.quantity, flux, spatial, spectral), Limit(r.value.quantity, limits))
      && (forall q: Quantity :: Rank(q) < Rank(r.value.quantity) ==>
            Within(LegacyMeasured(q, flux, spatial, spectral), Limit(q, limits)))
      && (forall q: Quantity :: Stage(q) == Stage(r.value.quantity) ==> LegacyMeasured(q, flux, spatial, spectral).Some?)
    // a division by zero comes from an undefined difference after every earlier stage was within
    ensures r == Failure(ZeroDivision) ==>
      var (flux, spatial, spectral) := (WebFlux(self, other), WebSpatial(self, other), WebSpectral(self, other));
      exists q: Quantity :: LegacyMeasured(q, flux, spatial, spectral).None? &&
        forall p: Quantity :: Stage(p) < Stage(q) ==> Within(LegacyMeasured(p, flux, spatial, spectral), Limit(p, limits))
  {
    match Guard(self, other)
    case Some(e) => Failure(e)
    case None =>
      var v := LegacySanityCheck(WebFlux(self, other), WebSpatial(self, other), WebSpectral(self, other), limits);
      if v.DivisionByZero? then Failure(ZeroDivision) else Success(v)
  }

  function WebFlux(self: WebRecord, other: WebRecord): Pair
  {
    (self.detection.fSum, other.detection.fSum)
  }

  function WebSpatial(self: WebRecord, other: WebRecord): Quad
  {
    (self.detection.ellMaj, other.detection.ellMaj, self.detection.ellMin, other.detection.ellMin)
  }

  function WebSpectral(self: WebRecord, other: WebRecord): Quad
  {
    (self.detection.w20, other.detection.w20, self.detection.w50, other.detection.w50)
  }

  /** The web check depends on which detection asks: fluxes 100 and 90 pass
      a 10 per cent threshold one way round and fail it the other. */
  lemma WebSanityCheckIsOrderDependent(a: WebRecord, b: WebRecord, limits: Limits)
    requires a.id != b.id && a.runId == b.runId
    requires a.detection.fSum == 100.0 && b.detection.fSum == 90.0 && limits.flux == 10
    ensures WebSanityCheck(a, b, limits) == Success(Exceeds(Flux))
    ensures WebSanityCheck(b, a, limits) != Success(Exceeds(Flux))
  {
    assert Abs(100.0 - 90.0) * 100.0 / Abs(90.0) > 10.0;
    assert Abs(90.0 - 100.0) * 100.0 / Abs(100.0) == 10.0;
  }

  /** The planar part of is_match, squared: `sqrt(D) <= 3 · sqrt(N) / D`
      with D the squared planar distance and N the weighted uncertainty
      becomes D³ <= 9N (for D > 0). */
  predicate WebPlanarNear(a: Detection, b: Detection)
  {
    var d := PlanarDistance(a, b);
    d * d * d <= 9.0 * PlanarWeight(a, b)
  }

  /** Detection.is_match on the rows the ORM loads. Every coordinate and
      uncertainty is a DecimalField, so the planar uncertainty divides the
      float `math.sqrt(...)` by a Decimal, which raises TypeError before any
      comparison: identical positions match, every other pair raises. */
  function WebIsMatch(self: WebRecord, other: WebRecord): (r: Result<bool, WebError>)
    ensures Guard(self, other).Some? ==> r == Failure(Guard(self, other).value)
    ensures r == Success(true) <==> Guard(self, other).None? && SamePosition(self.detection, other.detection)
    ensures Guard(self, other).None? && !SamePosition(self.detection, other.detection) ==> r == Failure(TypeMismatch)
  {
    match Guard(self, other)
    case Some(e) => Failure(e)
    case None => if SamePosition(self.detection, other.detection) then Success(true) else Failure(TypeMismatch)
  }

  /** On stored rows is_match never answers "no": where it answers at all it
      answers as the formula on float values would. */
  lemma WebIsMatchNeverRejects(a: WebRecord, b: WebRecord)
    ensures WebIsMatch(a, b) != Success(false)
    ensures WebIsMatch(a, b).Success? ==> WebIsMatch(a, b) == FloatIsMatch(a, b)
  {
  }

  /** Detection.is_match as written, on float-valued fields: identical
      positions match; otherwise a zero planar distance divides by zero, and
      a match needs the planar test above and |Δz| <= 3 · sqrt(ez₁² + ez₂²). */
  function FloatIsMatch(self: WebRecord, other: WebRecord): (r: Result<bool, WebError>)
    ensures Guard(self, other).Some? ==> r == Failure(Guard(self, other).value)
    ensures Guard(self, other).None? && SamePosition(self.detection, other.detection) ==> r == Success(true)
    ensures r.Failure? && Guard(self, other).None? ==>
      r.error == ZeroDivision && PlanarDistance(self.detection, other.detection) == 0.0
    ensures r == Success(true) && !SamePosition(self.detection, other.detection) ==>
      WebPlanarNear(self.detection, other.detection) && SpectralNear(3, self.detection, other.detection)
    ensures Guard(self, other).None? && !SamePosition(self.detection, other.detection) ==>
      && (PlanarDistance(self.detection, other.detection) == 0.0 ==> r == Failure(ZeroDivision))
      && (&& PlanarDistance(self.detection, other.detection) != 0.0
          && WebPlanarNear(self.detection, other.detection) && SpectralNear(3, self.detection, other.detection)
          ==> r == Success(true))
  {
    match Guard(self, other)
    case Some(e) => Failure(e)
    case None =>
      var a, b := self.detection, other.detection;
      if SamePosition(a, b) then Success(true)
      else if PlanarDistance(a, b) == 0.0 then Failure(ZeroDivision)
      else Success(WebPlanarNear(a, b) && SpectralNear(3, a, b))
  }

  /** For a positive divisor, `x <= y / c` is `x · c <= y`. */
  lemma ScaleBothSides(x: real, y: real, c: real)
    requires c > 0.0
    ensures x <= y / c <==> x * c <= y
  {
    var q := y / c;
    assert q * c == y;
    if x <= q {
      assert x * c <= q * c;
    } else {
      assert x * c > q * c;
    }
  }

  /** The squared form decides what the root form of is_match decides. */
  lemma {:induction false} WebRootFormAgrees(a: Detection, b: Detection, dist: real, root: real)
    requires PlanarDistance(a, b) > 0.0 && dist >= 0.0 && root >= 0.0
    requires dist * dist == PlanarDistance(a, b) && root * root == PlanarWeight(a, b)
    ensures dist <= 3.0 * root / PlanarDistance(a, b) <==> WebPlanarNear(a, b)
  {
    var d := PlanarDistance(a, b);
    ScaleBothSides(dist, 3.0 * root, d);
    var p := dist * d;
    assert p >= 0.0;
    SquaresPreserveOrder(p, 3.0 * root);
    assert p * p == (dist * dist) * (d * d);
    assert (3.0 * root) * (3.0 * root) == 9.0 * (root * root);
  }

  /** The test is_match evidently intends: the store's neighbour test with
      sigma fixed at 3, which divides inside the root. */
  predicate WebIsNeighbour(a: Detection, b: Detection)
  {
    IsNeighbour(3, a, b)
  }

  /** For two distinct positions the intended test is D² <= 9N. */
  lemma WebIsNeighbourSquared(a: Detection, b: Detection)
    requires PlanarDistance(a, b) != 0.0
    ensures WebIsNeighbour(a, b) <==>
      Sq(PlanarDistance(a, b)) <= 9.0 * PlanarWeight(a, b) && SpectralNear(3, a, b)
  {
    PlanarNearWithoutDivision(3, a, b);
  }

  /** A detection on the x axis at channel 0, with an uncertainty in x only. */
  predicate OnXAxis(d: Detection, x: real, errX: real)
  {
    d.x == x && d.y == 0.0 && d.z == 0.0 && d.errX == errX && d.errY == 0.0 && d.errZ == 0.0
  }

  /** For two such detections the squared distance is `dx2` and the weight `dx2 · ee`. */
  lemma XAxisFacts(a: Detection, b: Detection, x1: real, e1: real, x2: real, e2: real, dx2: real, ee: real)
    requires OnXAxis(a, x1, e1) && OnXAxis(b, x2, e2)
    requires Sq(x1 - x2) == dx2 && Sq(e1) + Sq(e2) == ee
    ensures PlanarDistance(a, b) == dx2
    ensures PlanarWeight(a, b) == dx2 * ee
    ensures SpectralNear(3, a, b)
    ensures x1 != x2 ==> !SamePosition(a, b)
  {
    assert Sq(a.y - b.y) == 0.0 && Sq(a.z - b.z) == 0.0;
    assert Sq(a.errY) + Sq(b.errY) == 0.0;
  }

  /** With the distance `d` and weight `w` known, both tests are comparisons of numbers. */
  lemma DecidedBy(a: Detection, b: Detection, d: real, w: real)
    requires d > 0.0 && PlanarDistance(a, b) == d && PlanarWeight(a, b) == w
    ensures WebPlanarNear(a, b) <==> d * d * d <= 9.0 * w
    ensures WebIsNeighbour(a, b) <==> d * d <= 9.0 * w && SpectralNear(3, a, b)
  {
    WebIsNeighbourSquared(a, b);
  }

  /** On float values is_match misses a neighbour: 4 pixels apart with unit uncertainties
      the detections are neighbours (D² = 256 <= 288 = 9N) but do not match
      (D³ = 4096 > 288). */
  lemma FloatIsMatchMissesNeighbour(a: WebRecord, b: WebRecord)
    requires a.id == 1 && b.id == 2 && a.runId == b.runId
    requires OnXAxis(a.detection, 0.0, 1.0) && OnXAxis(b.detection, 4.0, 1.0)
    ensures FloatIsMatch(a, b) == Success(false) && WebIsNeighbour(a.detection, b.detection)
  {
    XAxisFacts(a.detection, b.detection, 0.0, 1.0, 4.0, 1.0, 16.0, 2.0);
    DecidedBy(a.detection, b.detection, 16.0, 32.0);
  }

  /** On float values is_match accepts a non-neighbour: half a pixel apart with uncertainties
      of 0.1 the detections match (D³ = 0.015625 <= 0.045 = 9N) but are not
      neighbours (D² = 0.0625 > 0.045). */
  lemma FloatIsMatchAcceptsNonNeighbour(a: WebRecord, b: WebRecord)
    requires a.id == 1 && b.id == 2 && a.runId == b.runId
    requires OnXAxis(a.detection, 0.0, 0.1) && OnXAxis(b.detection, 0.5, 0.1)
    ensures FloatIsMatch(a, b) == Success(true) && !WebIsNeighbour(a.detection, b.detection)
  {
    XAxisFacts(a.detection, b.detection, 0.0, 0.1, 0.5, 0.1, 0.25, 0.02);
    DecidedBy(a.detection, b.detection, 0.25, 0.005);
  }

  /** On stored rows the same pair of neighbours, 4 pixels apart with unit
      uncertainties, makes is_match raise TypeError. */
  lemma WebIsMatchRaisesOnNeighbours(a: WebRecord, b: WebRecord)
    requires a.id == 1 && b.id == 2 && a.runId == b.runId
    requires OnXAxis(a.detection, 0.0, 1.0) && OnXAxis(b.detection, 4.0, 1.0)
    ensures WebIsMatch(a, b) == Failure(TypeMismatch) && WebIsNeighbour(a.detection, b.detection)
  {
    XAxisFacts(a.detection, b.detection, 0.0, 1.0, 4.0, 1.0, 16.0, 2.0);
    DecidedBy(a.detection, b.detection, 16.0, 32.0);
  }

  /** The comparison is_match evidently intends: the guards, then identical
      positions or the store's neighbour test with sigma 3, computed without
      mixing number types and without dividing by the distance. */
  function IntendedIsMatch(self: WebRecord, other: WebRecord): (r: Result<bool, WebError>)
    ensures r.Failure? <==> Guard(self, other).Some?
    ensures r.Failure? ==> r.error == Guard(self, other).value
    ensures r == Success(true) <==>
      Guard(self, other).None? && (SamePosition(self.detection, other.detection) || WebIsNeighbour(self.detection, other.detection))
  {
    match Guard(self, other)
    case Some(e) => Failure(e)
    case None => Success(SamePosition(self.detection, other.detection) || WebIsNeighbour(self.detection, other.detection))
  }

  /** The intended comparison does not depend on which detection asks, as the
      admin action's pairwise loop assumes. */
  lemma {:induction false} IntendedIsMatchSymmetric(a: WebRecord, b: WebRecord)
    ensures IntendedIsMatch(a, b) == IntendedIsMatch(b, a)
  {
    IsNeighbourSymmetric(3, a.detection, b.detection);
  }
}
