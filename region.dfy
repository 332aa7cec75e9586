/** The region boundary of an instance and the driver loop over parameter
    files (run_merge of sofiax/merge.py). The boundary is the
    `input.region` parameter, a comma-separated list of integers, or, when
    that is absent or empty, the whole cube read from the FITS header:
    [0, NAXIS1 - 1, 0, NAXIS2 - 1, 0, NAXISf - 1] with f the frequency axis. */
module Region {
  import opened Wrappers

  /** A FITS header card value: an integer or a string. */
  datatype Card = IntCard(i: int) | TextCard(s: string)

  type Header = map<string, Card>

  /** The exceptions the derivation raises: a missing parameter (KeyError),
      a card that int() refuses (TypeError or ValueError), no frequency axis
      (the unbound local), or a region piece that is not an integer. */
  datatype BoundaryError =
    | MissingParameter(key: string)
    | BadCard(key: string)
    | NoFrequencyAxis
    | BadInteger(piece: string)

  // ---------------------------------------------------------------------
  // From the header

  /** str.strip, for spaces. */
  function Strip(s: string): (r: string)
    ensures |r| <= |s|
    ensures |r| > 0 ==> r[0] != ' ' && r[|r| - 1] != ' '
    decreases |s|
  {
    if |s| > 0 && s[0] == ' ' then Strip(s[1..])
    else if |s| > 0 && s[|s| - 1] == ' ' then Strip(s[..|s| - 1])
    else s
  }

  predicate AllSpaces(s: string)
  {
    forall k :: 0 <= k < |s| ==> s[k] == ' '
  }

  /** `r` is `s[i..j]` with only spaces outside it. */
  predicate TrimmedAt(s: string, r: string, i: int, j: int)
  {
    0 <= i <= j <= |s| && r == s[i..j] && AllSpaces(s[..i]) && AllSpaces(s[j..])
  }

  /** Strip cuts a stretch of spaces off each end and nothing else: its
      result is an infix of the input with only spaces outside it. */
  lemma {:induction false} StripTrims(s: string)
    ensures exists i, j :: TrimmedAt(s, Strip(s), i, j)
    decreases |s|
  {
    if |s| > 0 && s[0] == ' ' {
      StripTrims(s[1..]);
      var i, j :| TrimmedAt(s[1..], Strip(s[1..]), i, j);
      TrimmedAfterSpace(s, Strip(s), i, j);
    } else if |s| > 0 && s[|s| - 1] == ' ' {
      StripTrims(s[..|s| - 1]);
      var i, j :| TrimmedAt(s[..|s| - 1], Strip(s[..|s| - 1]), i, j);
      TrimmedBeforeSpace(s, Strip(s), i, j);
    } else {
      assert s[..0] == [] && s[|s|..] == [];
      assert TrimmedAt(s, Strip(s), 0, |s|);
    }
  }

  lemma TrimmedAfterSpace(s: string, r: string, i: int, j: int)
    requires |s| > 0 && s[0] == ' ' && TrimmedAt(s[1..], r, i, j)
    ensures TrimmedAt(s, r, i + 1, j + 1)
  {
    assert s[..i + 1] == [' '] + s[1..][..i];
    assert s[j + 1..] == s[1..][j..];
  }

  lemma TrimmedBeforeSpace(s: string, r: string, i: int, j: int)
    requires |s| > 0 && s[|s| - 1] == ' ' && TrimmedAt(s[..|s| - 1], r, i, j)
    ensures TrimmedAt(s, r, i, j)
  {
    var t := s[..|s| - 1];
    assert s[..i] == t[..i];
    assert s[j..] == t[j..] + [' '];
  }

  predicate IsFrequency(h: Header, key: string)
  {
    key in h && h[key].TextCard? && Strip(h[key].s) == "FREQ"
  }

  /** The frequency axis: CTYPE4 when it names FREQ (it is checked last and
      wins), otherwise CTYPE3 when it does, otherwise whatever axis an
      earlier parameter file of the same run chose (`carried`), since the
      variable outlives the loop iteration that set it. */
  function FrequencyAxis(h: Header, carried: Option<string>): (r: Option<string>)
    ensures r.None? <==> !IsFrequency(h, "CTYPE3") && !IsFrequency(h, "CTYPE4") && carried.None?
    ensures IsFrequency(h, "CTYPE4") ==> r == Some("NAXIS4")
    ensures IsFrequency(h, "CTYPE3") && !IsFrequency(h, "CTYPE4") ==> r == Some("NAXIS3")
    ensures !IsFrequency(h, "CTYPE3") && !IsFrequency(h, "CTYPE4") ==> r == carried
  {
    if IsFrequency(h, "CTYPE4") then Some("NAXIS4")
    else if IsFrequency(h, "CTYPE3") then Some("NAXIS3")
    else carried
  }

  function IntCardOf(h: Header, key: string): (r: Result<int, BoundaryError>)
    ensures r.Success? <==> key in h && h[key].IntCard?
    ensures r.Success? ==> r.value == h[key].i
    ensures r.Failure? ==> r.error == BadCard(key)
  {
    if key in h && h[key].IntCard? then Success(h[key].i) else Failure(BadCard(key))
  }

  /** The whole cube: NAXIS1 and NAXIS2 are read first, then the frequency
      axis is chosen and its length read. */
  function HeaderBoundary(h: Header, carried: Option<string>): (r: Result<seq<int>, BoundaryError>)
    ensures r.Success? ==>
      && IntCardOf(h, "NAXIS1").Success? && IntCardOf(h, "NAXIS2").Success?
      && FrequencyAxis(h, carried).Some? && IntCardOf(h, FrequencyAxis(h, carried).value).Success?
      && r.value == [0, IntCardOf(h, "NAXIS1").value - 1, 0, IntCardOf(h, "NAXIS2").value - 1,
                     0, IntCardOf(h, FrequencyAxis(h, carried).value).value - 1]
    ensures r == Failure(NoFrequencyAxis) <==>
      IntCardOf(h, "NAXIS1").Success? && IntCardOf(h, "NAXIS2").Success? && FrequencyAxis(h, carried).None?
  {
    match IntCardOf(h, "NAXIS1")
    case Failure(e) => Failure(e)
    case Success(x) =>
      match IntCardOf(h, "NAXIS2")
      case Failure(e) => Failure(e)
      case Success(y) =>
        match FrequencyAxis(h, carried)
        case None => Failure(NoFrequencyAxis)
        case Some(axis) =>
          match IntCardOf(h, axis)
          case Failure(e) => Failure(e)
          case Success(z) => Success([0, x - 1, 0, y - 1, 0, z - 1])
  }

  /** A header boundary has six entries, a zero lower corner, and reads the
      spectral length from NAXIS4 whenever CTYPE4 is the frequency axis,
      whatever CTYPE3 says. */
  lemma HeaderBoundaryShape(h: Header, carried: Option<string>)
    requires HeaderBoundary(h, carried).Success?
    ensures var b := HeaderBoundary(h, carried).value;
      |b| == 6 && b[0] == 0 && b[2] == 0 && b[4] == 0
    ensures IsFrequency(h, "CTYPE4") ==>
      HeaderBoundary(h, carried).value[5] == IntCardOf(h, "NAXIS4").value - 1
  {
  }

  /** The boundary read from a header alone, with no axis carried over from
      an earlier file: it succeeds only when the header names a FREQ axis. */
  function FreshHeaderBoundary(h: Header): (r: Result<seq<int>, BoundaryError>)
    ensures r.Success? ==> IsFrequency(h, "CTYPE3") || IsFrequency(h, "CTYPE4")
    ensures (&& IntCardOf(h, "NAXIS1").Success? && IntCardOf(h, "NAXIS2").Success?
             && !IsFrequency(h, "CTYPE3") && !IsFrequency(h, "CTYPE4"))
            ==> r == Failure(NoFrequencyAxis)
  {
    HeaderBoundary(h, None)
  }

  /** A cube whose header names no FREQ axis still gets a boundary when an
      earlier file set the axis: its spectral extent is read from that
      file's axis (here NAXIS3 = 64 of a cube whose third axis is VRAD). */
  lemma StaleFrequencyAxis()
    ensures var h := map["NAXIS1" := IntCard(10), "NAXIS2" := IntCard(20), "NAXIS3" := IntCard(64),
                         "CTYPE3" := TextCard("VRAD")];
      && HeaderBoundary(h, Some("NAXIS3")) == Success([0, 9, 0, 19, 0, 63])
      && FreshHeaderBoundary(h) == Failure(NoFrequencyAxis)
  {
    var h := map["NAXIS1" := IntCard(10), "NAXIS2" := IntCard(20), "NAXIS3" := IntCard(64),
                 "CTYPE3" := TextCard("VRAD")];
    assert Strip("VRAD") == "VRAD";
    assert !IsFrequency(h, "CTYPE3") && !IsFrequency(h, "CTYPE4");
  }

  // ---------------------------------------------------------------------
  // From the region parameter

  /** The position of the first ',' in s, if any. */
  function FirstComma(s: string): (r: Option<nat>)
    ensures r.Some? <==> ',' in s
    ensures r.Some? ==> r.value < |s| && s[r.value] == ',' && ',' !in s[..r.value]
    ensures r.Some? ==> forall j :: 0 <= j < |s| && s[j] == ',' ==> r.value <= j
  {
    if |s| == 0 then None
    else if s[0] == ',' then Some(0)
    else match FirstComma(s[1..])
      case None => None
      case Some(i) => Some(i + 1)
  }

  /** ",".join. */
  function Join(pieces: seq<string>): string
    requires |pieces| > 0
  {
    if |pieces| == 1 then pieces[0] else pieces[0] + "," + Join(pieces[1..])
  }

  /** str.split(","): the pieces between commas, at least one, none holding a
      comma; joining them gives the string back. */
  function Split(s: string): (pieces: seq<string>)
    ensures |pieces| > 0
    ensures forall p :: p in pieces ==> ',' !in p
    ensures Join(pieces) == s
    decreases |s|
  {
    match FirstComma(s)
    case None => [s]
    case Some(i) =>
      var rest := Split(s[i + 1..]);
      assert s == s[..i] + "," + s[i + 1..];
      [s[..i]] + rest
  }

  /** A string whose first comma sits after `head` splits into `head` and
      the split of what follows the comma. */
  lemma SplitAfterHead(head: string, tail: string)
    requires ',' !in head
    ensures Split(head + "," + tail) == [head] + Split(tail)
  {
    var s := head + "," + tail;
    assert s[|head|] == ',';
    assert forall j :: 0 <= j < |head| ==> s[j] == head[j] && head[j] in head;
    assert FirstComma(s) == Some(|head|);
    assert s[..|head|] == head;
    assert s[|head| + 1..] == tail;
  }

  /** Splitting what was joined gives the pieces back. */
  lemma {:induction false} SplitJoin(pieces: seq<string>)
    requires |pieces| > 0 && forall p :: p in pieces ==> ',' !in p
    ensures Split(Join(pieces)) == pieces
    decreases |pieces|
  {
    assert pieces[0] in pieces;
    if |pieces| == 1 {
      assert FirstComma(pieces[0]) == None;
    } else {
      SplitAfterHead(pieces[0], Join(pieces[1..]));
      SplitJoin(pieces[1..]);
      assert [pieces[0]] + pieces[1..] == pieces;
    }
  }

  predicate IsDigit(c: char)
  {
    '0' <= c <= '9'
  }

  predicate AllDigits(s: string)
  {
    forall i :: 0 <= i < |s| ==> IsDigit(s[i])
  }

  function DigitValue(c: char): nat
    requires IsDigit(c)
  {
    (c as int - '0' as int) as nat
  }

  function DigitChar(d: nat): (c: char)
    requires d < 10
    ensures IsDigit(c) && DigitValue(c) == d
  {
    ('0' as int + d) as char
  }

  /** The value of a run of decimal digits. */
  function Digits(s: string): nat
    requires |s| > 0 && AllDigits(s)
  {
    if |s| == 1 then DigitValue(s[0]) else Digits(s[..|s| - 1]) * 10 + DigitValue(s[|s| - 1])
  }

  /** int() of one piece: an optional sign and at least one digit. */
  function ParseInt(s: string): (r: Option<int>)
    ensures r.Some? <==>
      (AllDigits(s) && |s| > 0) || (|s| > 1 && (s[0] == '-' || s[0] == '+') && AllDigits(s[1..]))
  {
    if |s| > 1 && (s[0] == '-' || s[0] == '+') && AllDigits(s[1..]) then
      var n: int := Digits(s[1..]);
      Some(if s[0] == '-' then -n else n)
    else if |s| > 0 && AllDigits(s) then Some(Digits(s))
    else None
  }

  /** Every piece through int(); the first piece it refuses is the error. */
  function ParseAll(pieces: seq<string>): (r: Result<seq<int>, BoundaryError>)
    ensures r.Success? ==> |r.value| == |pieces| && forall i :: 0 <= i < |pieces| ==> ParseInt(pieces[i]) == Some(r.value[i])
    ensures r.Failure? ==> exists i :: 0 <= i < |pieces| && ParseInt(pieces[i]).None? && r.error == BadInteger(pieces[i])
  {
    if |pieces| == 0 then Success([])
    else match ParseInt(pieces[0])
      case None => Failure(BadInteger(pieces[0]))
      case Some(v) =>
        match ParseAll(pieces[1..])
        case Failure(e) => Failure(e)
        case Success(vs) => Success([v] + vs)
  }

  /** [int(i) for i in region.split(',')]. */
  function ParseRegion(region: string): Result<seq<int>, BoundaryError>
  {
    ParseAll(Split(region))
  }

  /** The boundary of run_merge: `input.data` must be present; a missing or
      empty `input.region` takes the header boundary, read from this file's
      header alone; any other is parsed. */
  function Boundary(params: map<string, string>, header: Header)
    : (r: Result<seq<int>, BoundaryError>)
    ensures "input.data" !in params ==> r == Failure(MissingParameter("input.data"))
    ensures "input.data" in params && ("input.region" !in params || params["input.region"] == "") ==>
      r == FreshHeaderBoundary(header)
    ensures "input.data" in params && "input.region" in params && params["input.region"] != "" ==>
      r == ParseRegion(params["input.region"])
  {
    if "input.data" !in params then Failure(MissingParameter("input.data"))
    else if "input.region" !in params || params["input.region"] == "" then FreshHeaderBoundary(header)
    else ParseRegion(params["input.region"])
  }

  // ---------------------------------------------------------------------
  // Writing a region, for the round trip

  function ShowNat(n: nat): (s: string)
    ensures |s| > 0 && AllDigits(s)
  {
    if n < 10 then [DigitChar(n)] else ShowNat(n / 10) + [DigitChar(n % 10)]
  }

  function ShowInt(i: int): string
  {
    if i < 0 then "-" + ShowNat(-i) else ShowNat(i)
  }

  lemma {:induction false} DigitsOfShowNat(n: nat)
    ensures Digits(ShowNat(n)) == n
  {
    if n >= 10 {
      var s := ShowNat(n);
      assert s[..|s| - 1] == ShowNat(n / 10);
      DigitsOfShowNat(n / 10);
    }
  }

  lemma ParseShowInt(i: int)
    ensures ParseInt(ShowInt(i)) == Some(i)
    ensures ',' !in ShowInt(i)
  {
    var s := ShowInt(i);
    if i < 0 {
      assert s[1..] == ShowNat(-i);
      DigitsOfShowNat(-i);
    } else {
      DigitsOfShowNat(i);
      assert s[0] != '-' && s[0] != '+';
    }
  }

  /** A region written as comma-separated integers. */
  function FormatRegion(b: seq<int>): string
    requires |b| > 0
  {
    Join(seq(|b|, i requires 0 <= i < |b| => ShowInt(b[i])))
  }

  lemma {:induction false} ParseAllShown(b: seq<int>)
    ensures ParseAll(seq(|b|, i requires 0 <= i < |b| => ShowInt(b[i]))) == Success(b)
    decreases |b|
  {
    var shown := seq(|b|, i requires 0 <= i < |b| => ShowInt(b[i]));
    if |b| > 0 {
      var rest := seq(|b| - 1, i requires 0 <= i < |b| - 1 => ShowInt(b[1..][i]));
      ParseShowInt(b[0]);
      assert shown[0] == ShowInt(b[0]) && shown[1..] == rest;
      ParseAllShown(b[1..]);
      assert ParseAll(shown) == Success([b[0]] + b[1..]);
      assert [b[0]] + b[1..] == b;
    }
  }

  /** Parsing a written region gives the boundary back. */
  lemma {:induction false} RegionRoundTrip(b: seq<int>)
    requires |b| > 0
    ensures ParseRegion(FormatRegion(b)) == Success(b)
  {
    var shown := seq(|b|, i requires 0 <= i < |b| => ShowInt(b[i]));
    forall p | p in shown
      ensures ',' !in p
    {
      var i :| 0 <= i < |b| && shown[i] == p;
      ParseShowInt(b[i]);
    }
    SplitJoin(shown);
    ParseAllShown(b);
  }

  // ---------------------------------------------------------------------
  // The driver loop

  /** What run_merge does after SoFiA for one parameter file: merge when
      there is no return code (SoFiA was not run) or it is 0, stop the whole
      run quietly on 8 (no sources), and raise SystemError otherwise. */
  datatype Disposition = MergeDetections | StopQuietly | Fatal(code: int)

  function Dispose(returnCode: Option<int>): (d: Disposition)
    ensures d == MergeDetections <==> returnCode == None || returnCode == Some(0)
    ensures d == StopQuietly <==> returnCode == Some(8)
    ensures d.Fatal? ==> returnCode == Some(d.code) && d.code != 0 && d.code != 8
  {
    match returnCode
    case None => MergeDetections
    case Some(c) => if c == 0 then MergeDetections else if c == 8 then StopQuietly else Fatal(c)
  }

  /** How the loop over parameter files ends. */
  datatype RunEnd = Completed | Stopped(at: nat) | Raised(at: nat, code: int)

  /** The index of the first file that is not merged, or the count of files. */
  function FirstUnmerged(codes: seq<Option<int>>): (k: nat)
    ensures k <= |codes|
    ensures forall i :: 0 <= i < k ==> Dispose(codes[i]) == MergeDetections
    ensures k < |codes| ==> Dispose(codes[k]) != MergeDetections
  {
    if |codes| == 0 || Dispose(codes[0]) != MergeDetections then 0
    else 1 + FirstUnmerged(codes[1..])
  }

  function Ending(codes: seq<Option<int>>): RunEnd
  {
    var k := FirstUnmerged(codes);
    if k == |codes| then Completed
    else match Dispose(codes[k])
      case StopQuietly => Stopped(k)
      case Fatal(c) => Raised(k, c)
      case MergeDetections => Completed
  }

  /** run_merge: pop parameter files from the front of the queue, in order;
      each file's return code decides whether it is merged or ends the run.
      Returns the positions of the merged files. */
  method RunMerge(codes: seq<Option<int>>) returns (merged: seq<nat>, end: RunEnd)
    ensures merged == seq(FirstUnmerged(codes), i => i)
    ensures end == Ending(codes)
  {
    var queue := codes;
    var position := 0;
    merged := [];
    while |queue| > 0
      invariant position <= |codes| && queue == codes[position..]
      invariant position <= FirstUnmerged(codes)
      invariant merged == seq(position, i => i)
    {
      var code := queue[0];
      queue := queue[1..];
      var disposition := Dispose(code);
      if disposition.StopQuietly? {
        return merged, Stopped(position);
      } else if disposition.Fatal? {
        return merged, Raised(position, disposition.code);
      }
      merged := merged + [position];
      position := position + 1;
    }
    end := Completed;
  }

  /** Once a file returns 8, no later file is merged, whatever its code. */
  lemma NothingAfterAStop(codes: seq<Option<int>>, k: nat)
    requires k < |codes| && codes[k] == Some(8)
    ensures FirstUnmerged(codes) <= k
    ensures Ending(codes) != Completed && Ending(codes).at <= k
  {
  }
}
