/** The run and instance objects of src/schema.py. A run is validated when
    it is made; an instance is a plain record of thirteen fields that is
    turned into a dictionary for the store. Neither has a database id until
    the store gives it one. */
module Schema {
  import opened Wrappers
  import opened Settings

  // ---------------------------------------------------------------------
  // Run

  class Run {
    var runId: Option<nat>
    var name: string
    var thresholds: Config

    /** The object itself; creating one goes through NewRun, which checks. */
    constructor (name: string, thresholds: Config)
      ensures this.runId == None && this.name == name && this.thresholds == thresholds
    {
      this.runId := None;
      this.name := name;
      this.thresholds := thresholds;
    }

    /** Run(name, sanity_thresholds): a run with no id yet, or the error of
        Run.check_inputs, which the initialiser raises. */
    static method NewRun(name: string, thresholds: Config) returns (r: Result<Run, ConfigError>)
      ensures r.Success? <==> CheckInputs(thresholds).Success?
      ensures r.Failure? ==> r.error == CheckInputs(thresholds).error
      ensures r.Success? ==>
        && fresh(r.value)
        && r.value.runId == None && r.value.name == name && r.value.thresholds == thresholds
    {
      var run := new Run(name, thresholds);
      match CheckInputs(thresholds)
      case Failure(e) => r := Failure(e);
      case Success(_) => r := Success(run);
    }
  }

  // ---------------------------------------------------------------------
  // Instance

  /** A dictionary value of Instance.asdict. */
  datatype Field =
    | Null
    | Int(i: int)
    | Text(s: string)
    | Bytes(b: seq<bv8>)
    | Ints(xs: seq<int>)
    | Params(p: map<string, string>)

  /** The thirteen fields of an instance, as a value. */
  datatype InstanceRecord = InstanceRecord(
    instanceId: Option<nat>,
    runId: Option<int>,
    runDate: Option<string>,
    filename: string,
    boundary: seq<int>,
    flagLog: Option<seq<bv8>>,
    reliabilityPlot: Option<seq<bv8>>,
    log: Option<seq<bv8>>,
    params: map<string, string>,
    version: Option<string>,
    returnCode: Option<int>,
    stdout: Option<seq<bv8>>,
    stderr: Option<seq<bv8>>)

  /** The keys of Instance.asdict. */
  const InstanceKeys: set<string> :=
    {"instance_id", "run_id", "run_date", "filename", "boundary", "flag_log", "reliability_plot",
     "log", "params", "version", "return_code", "stdout", "stderr"}

  function IntField(o: Option<int>): Field
  {
    if o.Some? then Int(o.value) else Null
  }

  function TextField(o: Option<string>): Field
  {
    if o.Some? then Text(o.value) else Null
  }

  function BytesField(o: Option<seq<bv8>>): Field
  {
    if o.Some? then Bytes(o.value) else Null
  }

  /** The reading of a field back: Some(the optional value), or None when the
      field has the wrong form. */
  function ReadInt(f: Field): (r: Option<Option<int>>)
    ensures r == Some(None) <==> f == Null
  {
    match f
    case Null => Some(None)
    case Int(i) => Some(Some(i))
    case _ => None
  }

  function ReadText(f: Field): (r: Option<Option<string>>)
    ensures r == Some(None) <==> f == Null
  {
    match f
    case Null => Some(None)
    case Text(s) => Some(Some(s))
    case _ => None
  }

  function ReadBytes(f: Field): (r: Option<Option<seq<bv8>>>)
    ensures r == Some(None) <==> f == Null
  {
    match f
    case Null => Some(None)
    case Bytes(b) => Some(Some(b))
    case _ => None
  }

  /** A serial id: absent, or a non-negative integer. */
  function ReadId(f: Field): (r: Option<Option<nat>>)
    ensures r == Some(None) <==> f == Null
  {
    match ReadInt(f)
    case Some(Some(i)) => if i >= 0 then Some(Some(i as nat)) else None
    case Some(None) => Some(None)
    case None => None
  }

  /** The dictionary of an instance: one entry per field. */
  function Encode(rec: InstanceRecord): (d: map<string, Field>)
    ensures d.Keys == InstanceKeys
  {
    map[
      "instance_id" := if rec.instanceId.Some? then Int(rec.instanceId.value) else Null,
      "run_id" := IntField(rec.runId),
      "run_date" := TextField(rec.runDate),
      "filename" := Text(rec.filename),
      "boundary" := Ints(rec.boundary),
      "flag_log" := BytesField(rec.flagLog),
      "reliability_plot" := BytesField(rec.reliabilityPlot),
      "log" := BytesField(rec.log),
      "params" := Params(rec.params),
      "version" := TextField(rec.version),
      "return_code" := IntField(rec.returnCode),
      "stdout" := BytesField(rec.stdout),
      "stderr" := BytesField(rec.stderr)]
  }

  /** The instance a dictionary describes, if it has every key with a value
      of the right form. */
  function Decode(d: map<string, Field>): Option<InstanceRecord>
  {
    if !(InstanceKeys <= d.Keys) then None
    else
      var id, run, date := ReadId(d["instance_id"]), ReadInt(d["run_id"]), ReadText(d["run_date"]);
      var flagLog, plot, log := ReadBytes(d["flag_log"]), ReadBytes(d["reliability_plot"]), ReadBytes(d["log"]);
      var version, code := ReadText(d["version"]), ReadInt(d["return_code"]);
      var out, err := ReadBytes(d["stdout"]), ReadBytes(d["stderr"]);
      if && id.Some? && run.Some? && date.Some? && d["filename"].Text? && d["boundary"].Ints?
         && flagLog.Some? && plot.Some? && log.Some? && d["params"].Params?
         && version.Some? && code.Some? && out.Some? && err.Some?
      then
        Some(InstanceRecord(id.value, run.value, date.value, d["filename"].s, d["boundary"].xs,
                            flagLog.value, plot.value, log.value, d["params"].p,
                            version.value, code.value, out.value, err.value))
      else None
  }

  /** The dictionary loses nothing: reading it back gives the instance. */
  lemma DecodeEncode(rec: InstanceRecord)
    ensures Decode(Encode(rec)) == Some(rec)
  {
    EncodeReadsFront(rec);
    EncodeReadsMiddle(rec);
    EncodeReadsBack(rec);
  }

  /** The first three entries of the dictionary read back as their fields. */
  lemma EncodeReadsFront(rec: InstanceRecord)
    ensures var d := Encode(rec);
      && ReadId(d["instance_id"]) == Some(rec.instanceId)
      && ReadInt(d["run_id"]) == Some(rec.runId)
      && ReadText(d["run_date"]) == Some(rec.runDate)
  {
  }

  /** The next five entries. */
  lemma EncodeReadsMiddle(rec: InstanceRecord)
    ensures var d := Encode(rec);
      && d["filename"] == Text(rec.filename) && d["boundary"] == Ints(rec.boundary)
      && ReadBytes(d["flag_log"]) == Some(rec.flagLog)
      && ReadBytes(d["reliability_plot"]) == Some(rec.reliabilityPlot)
      && ReadBytes(d["log"]) == Some(rec.log)
  {
  }

  /** The last five entries. */
  lemma EncodeReadsBack(rec: InstanceRecord)
    ensures var d := Encode(rec);
      && d["params"] == Params(rec.params)
      && ReadText(d["version"]) == Some(rec.version)
      && ReadInt(d["return_code"]) == Some(rec.returnCode)
      && ReadBytes(d["stdout"]) == Some(rec.stdout)
      && ReadBytes(d["stderr"]) == Some(rec.stderr)
  {
  }

  /** Two instances with the same dictionary are the same instance. */
  lemma EncodeIsInjective(a: InstanceRecord, b: InstanceRecord)
    requires Encode(a) == Encode(b)
    ensures a == b
  {
    DecodeEncode(a);
    DecodeEncode(b);
  }

  class Instance {
    var instanceId: Option<nat>
    var runId: Option<int>
    var runDate: Option<string>
    var filename: string
    var boundary: seq<int>
    var flagLog: Option<seq<bv8>>
    var reliabilityPlot: Option<seq<bv8>>
    var log: Option<seq<bv8>>
    var params: map<string, string>
    var version: Option<string>
    var returnCode: Option<int>
    var stdout: Option<seq<bv8>>
    var stderr: Option<seq<bv8>>

    function Record(): InstanceRecord
      reads this
    {
      InstanceRecord(instanceId, runId, runDate, filename, boundary, flagLog, reliabilityPlot,
                     log, params, version, returnCode, stdout, stderr)
    }

    /** Instance(...): every field from its argument, and no id yet. */
    constructor (runId: Option<int>, runDate: Option<string>, filename: string, boundary: seq<int>,
                 flagLog: Option<seq<bv8>>, reliabilityPlot: Option<seq<bv8>>, log: Option<seq<bv8>>,
                 params: map<string, string>, version: Option<string>, returnCode: Option<int>,
                 stdout: Option<seq<bv8>>, stderr: Option<seq<bv8>>)
      ensures Record() == InstanceRecord(None, runId, runDate, filename, boundary, flagLog, reliabilityPlot,
                                         log, params, version, returnCode, stdout, stderr)
    {
      this.instanceId := None;
      this.runId := runId;
      this.runDate := runDate;
      this.filename := filename;
      this.boundary := boundary;
      this.flagLog := flagLog;
      this.reliabilityPlot := reliabilityPlot;
      this.log := log;
      this.params := params;
      this.version := version;
      this.returnCode := returnCode;
      this.stdout := stdout;
      this.stderr := stderr;
    }

    /** Instance.asdict: exactly the thirteen keys, from which the instance's
        current fields can be read back. */
    function AsDict(): (d: map<string, Field>)
      reads this
      ensures d.Keys == InstanceKeys
      ensures Decode(d) == Some(Record())
    {
      DecodeEncode(Record());
      Encode(Record())
    }
  }
}
