/**
 * The line loop shared by `_parse_freq_file` and `parse_transient_file`, and
 * `parse_data_file` around it, as functions over the lines of the export.
 * A line that contains the step marker starts a new step; any other line is
 * decoded as a record and appended to the current step's list. The first
 * failure stops the parse where it stands: the source raises, leaving the
 * analyzer's fields as they were at that point.
 */
module Parser {
  import opened Wrappers
  import opened Text
  import opened Format
  import opened Header
  import opened StepLine
  import opened Records

  /**
   * The analyzer's parse state: the current step number, the step label and
   * recorded step values (`param_step_info`), and the records by step number
   * (`data`).
   */
  datatype State = State(current: int, paramLabel: Option<string>, values: map<int, string>, data: map<int, seq<Record>>)

  /** The current step has a record list that data lines can be appended to. */
  predicate Valid(st: State)
  {
    st.current in st.data
  }

  /** The state before the first data line: step 0 with an empty list, no label and no values. */
  function Start(): (st: State)
    ensures Valid(st)
  {
    State(0, None, map[], map[0 := []])
  }

  /** The parse goes on with a state, or has stopped on an error with the state it had reached. */
  datatype Progress = Reading(state: State) | Stopped(state: State, error: Error)

  /** A data line decoded as the sweep kind demands. */
  function DecodeRecord(kind: SweepKind, probes: seq<string>, conv: Converters, line: string): (r: Result<Record, Error>)
    requires kind != Invalid
    ensures r.Ok? ==> (r.value.FreqRecord? <==> kind == AcFrequencyPhase)
  {
    if kind == AcFrequencyPhase then DecodeFreq(line, conv.toFloat) else TransientRecordOf(line, probes, conv.toFloat)
  }

  /**
   * A step line as `_parse_parameter_step` and its caller handle it: the
   * label is recorded first, then the value under the run number, and the
   * run number becomes the current step with a fresh, empty list (a list
   * already held under that number is dropped).
   */
  function StepFeed(st: State, line: string, toInt: string -> Option<int>): Progress
  {
    match ParseStepLine(line, toInt)
    case Unmatched => Stopped(st, StepLineMismatch)
    case BadRun(name) => Stopped(st.(paramLabel := Some(name)), RunNotInteger)
    case Stepped(name, value, run) => Reading(State(run, Some(name), st.values[run := value], st.data[run := []]))
  }

  /** One iteration of the line loop. */
  function Feed(kind: SweepKind, probes: seq<string>, conv: Converters, st: State, line: string): (p: Progress)
    requires kind != Invalid && Valid(st)
    ensures p.Reading? ==> Valid(p.state)
  {
    if Contains(line, StepMarker) then StepFeed(st, line, conv.toInt)
    else
      match DecodeRecord(kind, probes, conv, line)
      case Err(e) => Stopped(st, e)
      case Ok(rec) => Reading(st.(data := st.data[st.current := st.data[st.current] + [rec]]))
  }

  /** The line loop over `lines` from the state `start`, stopping at the first failure. */
  function Run(kind: SweepKind, probes: seq<string>, conv: Converters, start: State, lines: seq<string>): (p: Progress)
    requires kind != Invalid && Valid(start)
    ensures p.Reading? ==> Valid(p.state)
    decreases |lines|
  {
    if |lines| == 0 then Reading(start)
    else
      match Run(kind, probes, conv, start, lines[..|lines| - 1])
      case Stopped(st, e) => Stopped(st, e)
      case Reading(st) => Feed(kind, probes, conv, st, lines[|lines| - 1])
  }

  /** The lines after the header: what the `for line in file` loop reads once `readline()` took the first. */
  function Body(lines: seq<string>): seq<string>
  {
    if |lines| == 0 then [] else lines[1..]
  }

  /**
   * What a call of `parse_data_file` leaves in the analyzer: the file type,
   * the probe points, the step label and values, the records, and the error
   * it raised, if any.
   */
  datatype Outcome = Outcome(
    fileType: SweepKind, probes: seq<string>, paramLabel: Option<string>,
    values: map<int, string>, data: map<int, seq<Record>>, error: Option<Error>)

  /** `parse_data_file` over the lines of a file. */
  function ParseFile(lines: seq<string>, conv: Converters): Outcome
  {
    var header := HeaderLine(lines);
    var kind := HeaderKind(header);
    var probes := ProbeNames(header);
    if kind == Invalid then Outcome(Invalid, probes, None, map[], map[], None)
    else Finish(kind, probes, Run(kind, probes, conv, Start(), Body(lines)))
  }

  /** The analyzer's fields once the line loop has ended or stopped. */
  function Finish(kind: SweepKind, probes: seq<string>, p: Progress): Outcome
  {
    Outcome(kind, probes, p.state.paramLabel, p.state.values, p.state.data, if p.Stopped? then Some(p.error) else None)
  }

  /** Once the loop has stopped, no later line changes the result. */
  lemma {:induction false} RunStopped(kind: SweepKind, probes: seq<string>, conv: Converters, start: State, lines: seq<string>, k: nat)
    requires kind != Invalid && Valid(start) && k <= |lines|
    requires Run(kind, probes, conv, start, lines[..k]).Stopped?
    ensures Run(kind, probes, conv, start, lines) == Run(kind, probes, conv, start, lines[..k])
    decreases |lines|
  {
    if k < |lines| {
      var n := |lines| - 1;
      assert lines[..n][..k] == lines[..k];
      RunStopped(kind, probes, conv, start, lines[..n], k);
    } else {
      assert lines[..k] == lines;
    }
  }

  /** The result of the loop is that of the first line that fails, whatever follows it. */
  lemma RunFirstFailure(kind: SweepKind, probes: seq<string>, conv: Converters, start: State, lines: seq<string>, k: nat)
    requires kind != Invalid && Valid(start) && k < |lines|
    requires Run(kind, probes, conv, start, lines[..k]).Reading?
    requires Feed(kind, probes, conv, Run(kind, probes, conv, start, lines[..k]).state, lines[k]).Stopped?
    ensures Run(kind, probes, conv, start, lines) == Feed(kind, probes, conv, Run(kind, probes, conv, start, lines[..k]).state, lines[k])
  {
    assert lines[..k + 1][..k] == lines[..k];
    RunStopped(kind, probes, conv, start, lines, k + 1);
  }

  /**
   * The records of lines decoded one after another, up to the first that
   * fails, and that failure: the reference the loop is compared with on
   * files without step lines.
   */
  function DecodeAll(kind: SweepKind, probes: seq<string>, conv: Converters, lines: seq<string>): (seq<Record>, Option<Error>)
    requires kind != Invalid
    decreases |lines|
  {
    if |lines| == 0 then ([], None)
    else
      match DecodeRecord(kind, probes, conv, lines[0])
      case Err(e) => ([], Some(e))
      case Ok(rec) =>
        var (rest, e) := DecodeAll(kind, probes, conv, lines[1..]);
        ([rec] + rest, e)
  }

  /** Decoding one more line extends the records, unless an earlier line already failed. */
  lemma {:induction false} DecodeAllSnoc(kind: SweepKind, probes: seq<string>, conv: Converters, lines: seq<string>, line: string)
    requires kind != Invalid
    ensures DecodeAll(kind, probes, conv, lines + [line]) ==
      var (recs, e) := DecodeAll(kind, probes, conv, lines);
      if e.Some? then (recs, e)
      else match DecodeRecord(kind, probes, conv, line)
        case Err(e') => (recs, Some(e'))
        case Ok(rec) => (recs + [rec], None)
    decreases |lines|
  {
    if |lines| == 0 {
      assert lines + [line] == [line] && [line][1..] == [];
      if DecodeRecord(kind, probes, conv, line).Ok? {
        var rec := DecodeRecord(kind, probes, conv, line).value;
        assert [rec] + [] == [] + [rec];
      }
    } else {
      assert (lines + [line])[0] == lines[0];
      assert (lines + [line])[1..] == lines[1..] + [line];
      DecodeAllSnoc(kind, probes, conv, lines[1..], line);
      var rest := DecodeAll(kind, probes, conv, lines[1..]).0;
      forall rec: Record, rec': Record ensures [rec] + rest + [rec'] == [rec] + (rest + [rec']) {
      }
    }
  }

  /** The single record list of a file without step lines, with the loop's outcome. */
  function Unstepped(recs: seq<Record>, e: Option<Error>): Progress
  {
    var st := State(0, None, map[], map[0 := recs]);
    if e.Some? then Stopped(st, e.value) else Reading(st)
  }

  /**
   * Without step lines every record lands in the list of step 0, which is
   * the only one, in the order of the lines, and no label or value is
   * recorded.
   */
  lemma {:induction false} RunWithoutSteps(kind: SweepKind, probes: seq<string>, conv: Converters, lines: seq<string>)
    requires kind != Invalid
    requires forall i :: 0 <= i < |lines| ==> !Contains(lines[i], StepMarker)
    ensures Run(kind, probes, conv, Start(), lines) == Unstepped(DecodeAll(kind, probes, conv, lines).0, DecodeAll(kind, probes, conv, lines).1)
    decreases |lines|
  {
    if |lines| > 0 {
      var n := |lines| - 1;
      RunWithoutSteps(kind, probes, conv, lines[..n]);
      assert lines == lines[..n] + [lines[n]];
      DecodeAllSnoc(kind, probes, conv, lines[..n], lines[n]);
      var (recs, e) := DecodeAll(kind, probes, conv, lines[..n]);
      if e.None? {
        FeedUnstepped(kind, probes, conv, recs, lines[n]);
      }
    }
  }

  /** A data line read into the single list of a file without step lines. */
  lemma FeedUnstepped(kind: SweepKind, probes: seq<string>, conv: Converters, recs: seq<Record>, line: string)
    requires kind != Invalid && !Contains(line, StepMarker)
    ensures Feed(kind, probes, conv, State(0, None, map[], map[0 := recs]), line) ==
      match DecodeRecord(kind, probes, conv, line)
      case Err(e) => Unstepped(recs, Some(e))
      case Ok(rec) => Unstepped(recs + [rec], None)
  {
  }

  /**
   * A file whose header names a sweep and whose body has no step line keeps
   * all its records under step 0, the only key, with no label and no values.
   */
  lemma ParseFileWithoutSteps(lines: seq<string>, conv: Converters)
    requires HeaderKind(HeaderLine(lines)) != Invalid
    requires forall i :: 0 < i < |lines| ==> !Contains(lines[i], StepMarker)
    ensures var out := ParseFile(lines, conv);
      var (recs, e) := DecodeAll(HeaderKind(HeaderLine(lines)), ProbeNames(HeaderLine(lines)), conv, Body(lines));
      && out.data.Keys == {0} && out.data[0] == recs && out.error == e
      && out.paramLabel == None && out.values == map[]
  {
    var body := Body(lines);
    assert forall i :: 0 <= i < |body| ==> body[i] == lines[i + 1];
    RunWithoutSteps(HeaderKind(HeaderLine(lines)), ProbeNames(HeaderLine(lines)), conv, body);
  }

  /** The run numbers of the step lines among `lines` that the step parser accepts. */
  ghost function StepRuns(lines: seq<string>, toInt: string -> Option<int>): set<int>
    decreases |lines|
  {
    if |lines| == 0 then {}
    else
      var n := |lines| - 1;
      var step := ParseStepLine(lines[n], toInt);
      StepRuns(lines[..n], toInt) + if Contains(lines[n], StepMarker) && step.Stepped? then {step.run} else {}
  }

  /**
   * While the loop goes on, the record lists are keyed by step 0 and the run
   * number of every step line read so far, and the recorded values by those
   * run numbers.
   */
  lemma {:induction false} RunKeys(kind: SweepKind, probes: seq<string>, conv: Converters, lines: seq<string>)
    requires kind != Invalid && Run(kind, probes, conv, Start(), lines).Reading?
    ensures Run(kind, probes, conv, Start(), lines).state.data.Keys == {0} + StepRuns(lines, conv.toInt)
    ensures Run(kind, probes, conv, Start(), lines).state.values.Keys == StepRuns(lines, conv.toInt)
    decreases |lines|
  {
    if |lines| > 0 {
      var n := |lines| - 1;
      assert Run(kind, probes, conv, Start(), lines[..n]).Reading?;
      RunKeys(kind, probes, conv, lines[..n]);
    }
  }

  /** The step marker begins every line the step pattern matches. */
  lemma StepShapeMarked(line: string, g: StepGroups, gap: string)
    requires StepShape(line, g, gap)
    ensures Contains(line, StepMarker)
  {
    HasAtSlice(line, 0, StepPrefix);
    assert StepPrefix == StepMarker + " ";
    assert line[0..17] == StepMarker;
    assert OccursAt(line, StepMarker, 0);
  }

  /**
   * A step line for run `r`, read with the decomposition the pattern picks
   * (the one with the longest value), makes `r` the current step with an
   * empty record list, records the label and the value for `r`, and leaves
   * every other step's records and values as they were.
   */
  lemma FeedStepLine(kind: SweepKind, probes: seq<string>, conv: Converters, st: State, line: string, g: StepGroups, gap: string, r: int)
    requires kind != Invalid && Valid(st)
    requires StepShape(line, g, gap) && conv.toInt(g.run) == Some(r)
    requires forall g', gap' :: StepShape(line, g', gap') ==> |g'.value| <= |g.value|
    ensures Feed(kind, probes, conv, st, line) == Reading(State(r, Some(g.paramLabel), st.values[r := g.value], st.data[r := []]))
    ensures var s := Feed(kind, probes, conv, st, line).state;
      && s.current == r && s.paramLabel == Some(g.paramLabel)
      && s.data.Keys == st.data.Keys + {r} && s.data[r] == []
      && (forall k :: k in st.data && k != r ==> s.data[k] == st.data[k])
      && s.values.Keys == st.values.Keys + {r} && s.values[r] == g.value
      && (forall k :: k in st.values && k != r ==> s.values[k] == st.values[k])
  {
    StepShapeMarked(line, g, gap);
    ScanStepLongest(line, g);
  }

  /**
   * A step line whose run text `int` rejects, read with the decomposition
   * the pattern picks, stops the parse with the line's label recorded and
   * everything else as it was.
   */
  lemma FeedBadRun(kind: SweepKind, probes: seq<string>, conv: Converters, st: State, line: string, g: StepGroups, gap: string)
    requires kind != Invalid && Valid(st)
    requires StepShape(line, g, gap) && conv.toInt(g.run).None?
    requires forall g', gap' :: StepShape(line, g', gap') ==> |g'.value| <= |g.value|
    ensures Feed(kind, probes, conv, st, line) == Stopped(st.(paramLabel := Some(g.paramLabel)), RunNotInteger)
  {
    StepShapeMarked(line, g, gap);
    ScanStepLongest(line, g);
  }

  /**
   * A line that carries the step marker but that the step pattern does not
   * match stops the parse with nothing changed; one whose run is not an
   * integer stops it after the label is recorded.
   */
  lemma FeedBadStepLine(kind: SweepKind, probes: seq<string>, conv: Converters, st: State, line: string)
    requires kind != Invalid && Valid(st) && Contains(line, StepMarker)
    ensures (!exists g, gap :: StepShape(line, g, gap)) ==> Feed(kind, probes, conv, st, line) == Stopped(st, StepLineMismatch)
    ensures Feed(kind, probes, conv, st, line).Stopped? && Feed(kind, probes, conv, st, line).error == RunNotInteger ==>
      exists name :: Feed(kind, probes, conv, st, line).state == st.(paramLabel := Some(name))
    ensures ScanStep(line).Some? && conv.toInt(ScanStep(line).value.run).None? ==>
      Feed(kind, probes, conv, st, line) == Stopped(st.(paramLabel := Some(ScanStep(line).value.paramLabel)), RunNotInteger)
  {
    ParseStepLineUnmatched(line, conv.toInt);
  }

  /** A data line appends its record to the current step's list, or stops the parse with nothing changed. */
  lemma FeedDataLine(kind: SweepKind, probes: seq<string>, conv: Converters, st: State, line: string)
    requires kind != Invalid && Valid(st) && !Contains(line, StepMarker)
    ensures var p := Feed(kind, probes, conv, st, line);
      match DecodeRecord(kind, probes, conv, line)
      case Err(e) => p == Stopped(st, e)
      case Ok(rec) =>
        && p.Reading? && p.state.current == st.current
        && p.state.paramLabel == st.paramLabel && p.state.values == st.values
        && p.state.data.Keys == st.data.Keys
        && p.state.data[st.current] == st.data[st.current] + [rec]
        && forall k :: k in st.data && k != st.current ==> p.state.data[k] == st.data[k]
  {
  }

  /** A header whose first field names neither a frequency nor a time axis gives empty data and no error, whatever follows. */
  lemma ParseFileInvalid(lines: seq<string>, conv: Converters)
    requires var axis := Split(HeaderLine(lines), '\t')[0];
      !Contains(axis, "Freq.") && !Contains(axis, "time")
    ensures ParseFile(lines, conv) == Outcome(Invalid, ProbeNames(HeaderLine(lines)), None, map[], map[], None)
  {
  }

  /** An empty file has an empty header, which names no sweep. */
  lemma ParseFileEmpty(conv: Converters)
    ensures ParseFile([], conv) == Outcome(Invalid, [], None, map[], map[], None)
  {
    assert Split("", '\t') == [""];
    assert !Contains("", "Freq.") && !Contains("", "time");
  }
}
