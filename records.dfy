/** Detection records: the loosely typed dictionary a catalogue row is read
    into, the schema that completes it before it is stored, and the typed
    view of the columns the reconciliation engine compares. */
module Records {

  /** A dictionary value: None, a number, a string, a boolean, an integer, a
      list of integers (a boundary), raw bytes, or a parameter dictionary. */
  datatype Value =
    | Null
    | Num(r: real)
    | Text(s: string)
    | Flag(b: bool)
    | Whole(i: int)
    | Ints(items: seq<int>)
    | Bytes(data: seq<bv8>)
    | Params(entries: map<string, string>)

  type Record = map<string, Value>

  /** The columns of a stored detection in the current version
      (Const.FULL_SCHEMA of sofiax/db.py); every default is None. */
  const FullSchema: seq<string> :=
    ["name", "x", "y", "z", "x_min", "x_max", "y_min", "z_min", "z_max", "n_pix", "f_min",
     "f_max", "f_sum", "rel", "rms", "w20", "w50", "ell_maj", "ell_min", "ell_pa", "ell3s_maj",
     "ell3s_pa", "kin_pa", "ra", "dec", "l", "b", "v_rad", "v_opt", "v_app", "err_x", "err_y",
     "err_z", "err_f_sum", "freq", "flag", "unresolved", "wm50", "x_peak", "y_peak", "z_peak",
     "ra_peak", "dec_peak", "freq_peak", "l_peak", "b_peak", "v_rad_peak", "v_opt_peak",
     "v_app_peak"]

  /** The columns of a stored detection in the rewrite (Detection.SCHEMA of
      src/schema.py); every default is None. */
  const DetectionSchema: seq<string> :=
    ["name", "x", "y", "z", "x_min", "x_max", "y_min", "z_min", "z_max", "n_pix", "f_min",
     "f_max", "f_sum", "rel", "rms", "w20", "w50", "ell_maj", "ell_min", "ell_pa", "ell3s_maj",
     "ell3s_pa", "kin_pa", "ra", "dec", "l", "b", "v_rad", "v_opt", "v_app", "err_x", "err_y",
     "err_z", "err_f_sum", "freq", "flag"]

  /** The keys the insert writes from its own arguments. */
  const StampedKeys: set<string> := {"run_id", "instance_id", "unresolved"}

  /** The null-fill of db_detection_insert: the run id, instance id and
      unresolved flag are written from the arguments, then every schema key
      that is missing or None is set to its default, None. Values that are
      present are never altered, and nothing but schema keys is added. */
  method FillNulls(detection: Record, schema: seq<string>, runId: int, instanceId: int, unresolved: bool)
    returns (d: Record)
    ensures d.Keys == detection.Keys + StampedKeys + (set k | k in schema)
    ensures d["run_id"] == Whole(runId) && d["instance_id"] == Whole(instanceId)
    ensures d["unresolved"] == Flag(unresolved)
    ensures forall k :: k in detection && k !in StampedKeys ==> d[k] == detection[k]
    ensures forall k :: k in d && k !in detection && k !in StampedKeys ==> d[k] == Null
  {
    d := detection["run_id" := Whole(runId)]["instance_id" := Whole(instanceId)]["unresolved" := Flag(unresolved)];
    var i := 0;
    while i < |schema|
      invariant 0 <= i <= |schema|
      invariant d.Keys == detection.Keys + StampedKeys + (set k | k in schema[..i])
      invariant d["run_id"] == Whole(runId) && d["instance_id"] == Whole(instanceId)
      invariant d["unresolved"] == Flag(unresolved)
      invariant forall k :: k in detection && k !in StampedKeys ==> d[k] == detection[k]
      invariant forall k :: k in d && k !in detection && k !in StampedKeys ==> d[k] == Null
    {
      var key := schema[i];
      if key !in d || d[key] == Null {
        d := d[key := Null];
      }
      assert schema[..i + 1] == schema[..i] + [key];
      i := i + 1;
    }
    assert schema[..i] == schema;
  }

  /** The bounding box and pixel statistics that, with the name, position
      and integrated flux, identify a stored detection. */
  datatype Shape = Shape(xMin: real, xMax: real, yMin: real, yMax: real, zMin: real, zMax: real,
                         nPix: real, fMin: real, fMax: real)

  /** The typed view of a detection: position, shape, integrated flux
      (`f_sum`), position uncertainties, the extents compared by the sanity
      check, the quality flag, right ascension, and the remaining columns. */
  datatype Detection = Detection(
    name: string,
    x: real, y: real, z: real,
    shape: Shape,
    fSum: real,
    errX: real, errY: real, errZ: real,
    ellMaj: real, ellMin: real, w20: real, w50: real,
    flag: int,
    ra: real,
    rest: Record)

  /** A stored detection: its serial id, the run and instance it came from,
      whether it awaits manual resolution, and its columns. */
  datatype Row = Row(id: nat, runId: int, instanceId: nat, unresolved: bool, detection: Detection)
}
