/** The size policy for a detection's data products (cubelet, mask, moment
    maps, channel map, spectrum, position-velocity slice) before they are
    written next to the detection (db_detection_product_insert of
    sofiax/db.py). Sizes are abstract naturals standing for the object sizes
    the source measures. */
module Products {
  import opened Wrappers

  /** The largest value a PostgreSQL bytea column holds, as the source states it. */
  const MaxBytea: nat := 1073741823

  /** A product file: its bytes and the size the source measures for it. */
  datatype Blob = Blob(data: seq<bv8>, size: nat)

  /** The eight files read for one detection. */
  datatype Blobs = Blobs(cube: Blob, mask: Blob, mom0: Blob, mom1: Blob, mom2: Blob,
                         chan: Blob, spec: Blob, pv: Blob)

  /** A product row: each column holds a blob or is NULL. */
  datatype Product = Product(cube: Option<Blob>, mask: Option<Blob>, mom0: Option<Blob>,
                             mom1: Option<Blob>, mom2: Option<Blob>, chan: Option<Blob>,
                             spec: Option<Blob>, pv: Option<Blob>)

  /** _check_bytea: a blob strictly below the limit is kept and counted with
      its size; any other is dropped and counted as 0. */
  function CheckBytea(b: Blob): (r: (Option<Blob>, nat))
    ensures r.0 == Some(b) || r.0 == None
    ensures r.0.Some? <==> b.size < MaxBytea
    ensures r.1 == (if r.0.Some? then b.size else 0)
    ensures r.1 < MaxBytea
  {
    if b.size < MaxBytea then (Some(b), b.size) else (None, 0)
  }

  function Kept(b: Blob): Option<Blob>
  {
    CheckBytea(b).0
  }

  function Counted(b: Blob): nat
  {
    CheckBytea(b).1
  }

  /** The total the policy compares with the limit: every kept blob except mom2. */
  function Total(b: Blobs): nat
  {
    Counted(b.cube) + Counted(b.mask) + Counted(b.mom0) + Counted(b.mom1) +
    Counted(b.chan) + Counted(b.spec) + Counted(b.pv)
  }

  /** The fallback total: the two moment maps and the spectrum. */
  function Essential(b: Blobs): nat
  {
    Counted(b.mom0) + Counted(b.mom1) + Counted(b.spec)
  }

  function Size(o: Option<Blob>): nat
  {
    if o.Some? then o.value.size else 0
  }

  /** The stored size of the blobs the total counts before any fallback. */
  function CountedSize(p: Product): nat
  {
    Size(p.cube) + Size(p.mask) + Size(p.mom0) + Size(p.mom1) + Size(p.chan) + Size(p.spec) + Size(p.pv)
  }

  /** db_detection_product_insert's decision: every blob is checked alone;
      when the kept blobs (mom2 not counted) exceed the limit, cube, mask and
      channel map are dropped if the moment maps and spectrum fit strictly
      below it, and otherwise no product row is written (None). */
  function CapProducts(b: Blobs): (p: Option<Product>)
    ensures p.None? <==> Total(b) > MaxBytea && Essential(b) >= MaxBytea
    ensures p.Some? ==>
      && p.value.mom0 == Kept(b.mom0) && p.value.mom1 == Kept(b.mom1) && p.value.mom2 == Kept(b.mom2)
      && p.value.spec == Kept(b.spec) && p.value.pv == Kept(b.pv)
    ensures p.Some? && Total(b) <= MaxBytea ==>
      p.value.cube == Kept(b.cube) && p.value.mask == Kept(b.mask) && p.value.chan == Kept(b.chan)
    ensures p.Some? && Total(b) > MaxBytea ==>
      p.value.cube == None && p.value.mask == None && p.value.chan == None
  {
    var all := Product(Kept(b.cube), Kept(b.mask), Kept(b.mom0), Kept(b.mom1), Kept(b.mom2),
                       Kept(b.chan), Kept(b.spec), Kept(b.pv));
    if Total(b) > MaxBytea then
      if Essential(b) < MaxBytea then Some(all.(cube := None, mask := None, chan := None))
      else None
    else Some(all)
  }

  /** Every blob that is written is the file it came from, strictly below the
      limit; when nothing had to be dropped for the total, the counted blobs
      together fit the limit. */
  lemma {:induction false} CappedBlobsFit(b: Blobs)
    requires CapProducts(b).Some?
    ensures var p := CapProducts(b).value;
      && Size(p.cube) < MaxBytea && Size(p.mask) < MaxBytea && Size(p.mom0) < MaxBytea
      && Size(p.mom1) < MaxBytea && Size(p.mom2) < MaxBytea && Size(p.chan) < MaxBytea
      && Size(p.spec) < MaxBytea && Size(p.pv) < MaxBytea
    ensures Total(b) <= MaxBytea ==> CountedSize(CapProducts(b).value) <= MaxBytea
    ensures Total(b) > MaxBytea ==>
      var p := CapProducts(b).value;
      Size(p.mom0) + Size(p.mom1) + Size(p.spec) < MaxBytea
  {
    var p := CapProducts(b).value;
    assert Size(Kept(b.cube)) == Counted(b.cube) && Size(Kept(b.mask)) == Counted(b.mask);
    assert Size(Kept(b.mom0)) == Counted(b.mom0) && Size(Kept(b.mom1)) == Counted(b.mom1);
    assert Size(Kept(b.chan)) == Counted(b.chan) && Size(Kept(b.spec)) == Counted(b.spec);
    assert Size(Kept(b.pv)) == Counted(b.pv) && Size(Kept(b.mom2)) == Counted(b.mom2);
  }

  /** The fallback does not drop the position-velocity slice, which the
      fallback total does not count: what is written after the fallback can
      still exceed the limit. */
  lemma PvSurvivesTheFallback()
    ensures var large, one := Blob([], MaxBytea - 1), Blob([], 1);
      var b := Blobs(one, one, Blob([], MaxBytea - 3), one, one, one, one, large);
      && CapProducts(b).Some?
      && CapProducts(b).value.pv == Some(large)
      && CapProducts(b).value.cube == None
      && CountedSize(CapProducts(b).value) > MaxBytea
  {
    var large, one := Blob([], MaxBytea - 1), Blob([], 1);
    var b := Blobs(one, one, Blob([], MaxBytea - 3), one, one, one, one, large);
    assert Total(b) > MaxBytea && Essential(b) == MaxBytea - 1;
  }

  /** mom2 is never counted: a product whose mom2 alone is just below the
      limit is written in full beside blobs that take the total past it. */
  lemma MomentTwoIsNotCounted()
    ensures var big, one := Blob([], MaxBytea - 1), Blob([], 1);
      var b := Blobs(one, one, one, one, big, one, one, one);
      && CapProducts(b).Some?
      && CapProducts(b).value.mom2 == Some(big) && CapProducts(b).value.cube == Some(one)
      && Size(CapProducts(b).value.mom2) + CountedSize(CapProducts(b).value) > MaxBytea
  {
    var big, one := Blob([], MaxBytea - 1), Blob([], 1);
    var b := Blobs(one, one, one, one, big, one, one, one);
    assert Total(b) == 7;
  }
}
