/**
 * `LTSpiceDataAnalyzer` itself: an object whose parse methods fill its
 * fields line by line. Each method is proved against the functions of
 * `Parser`, whose properties are proved there.
 */
module Analyzer {
  import opened Wrappers
  import opened Text
  import opened Format
  import opened Header
  import opened StepLine
  import opened Records
  import opened Parser

  /**
   * `LTSpiceDataAnalyzer.StepInfo`: the step label and the value recorded
   * for each run. In the source `values` is a class attribute, one dict
   * shared by every `StepInfo` ever made, so values recorded by one parse
   * stay visible to the next; here each `StepInfo` owns its map.
   */
  class StepInfo {
    var paramLabel: Option<string>
    var values: map<int, string>

    constructor ()
      ensures paramLabel == None && values == map[]
    {
      paramLabel := None;
      values := map[];
    }
  }

  class LtSpiceDataAnalyzer {
    var fileType: Option<SweepKind>
    var paramStepInfo: StepInfo?
    var probePoints: seq<string>
    var data: map<int, seq<Record>>

    /** A fresh analyzer: no file type and no step information yet, no probes and no data. */
    constructor ()
      ensures fileType == None && paramStepInfo == null && probePoints == [] && data == map[]
    {
      fileType := None;
      paramStepInfo := null;
      probePoints := [];
      data := map[];
    }

    /**
     * `parse_data_file` over the lines of a file: resets the fields, reads
     * the header, then hands the remaining lines to the parser of the sweep
     * kind the header names. The result is the error the source raises, if
     * any; the fields are left as the source leaves them, also on an error.
     */
    method ParseDataFile(lines: seq<string>, conv: Converters) returns (error: Option<Error>)
      modifies this
      ensures paramStepInfo != null && fresh(paramStepInfo)
      ensures var out := ParseFile(lines, conv);
        && fileType == Some(out.fileType) && probePoints == out.probes
        && paramStepInfo.paramLabel == out.paramLabel && paramStepInfo.values == out.values
        && data == out.data && error == out.error
    {
      fileType := Some(Invalid);
      probePoints := [];
      var info := new StepInfo();
      paramStepInfo := info;
      data := map[];
      ReadHeader(HeaderLine(lines));
      ghost var kind := HeaderKind(HeaderLine(lines));
      assert State(0, info.paramLabel, info.values, data[0 := []]) == Start();
      error := None;
      if fileType == Some(AcFrequencyPhase) {
        error := ParseFreqFile(Body(lines), conv);
        assert ParseFile(lines, conv) == Finish(kind, probePoints, Run(kind, probePoints, conv, Start(), Body(lines)));
      } else if fileType == Some(Transient) {
        error := ParseTransientFile(Body(lines), conv);
        assert ParseFile(lines, conv) == Finish(kind, probePoints, Run(kind, probePoints, conv, Start(), Body(lines)));
      }
    }

    /**
     * The header part of `parse_data_file`: the first field of the header
     * line names the sweep kind, "Freq." before "time", and every further
     * field, right-stripped, is appended to the probe points.
     */
    method ReadHeader(header: string)
      modifies this
      ensures fileType == if HeaderKind(header) == Invalid then old(fileType) else Some(HeaderKind(header))
      ensures probePoints == old(probePoints) + ProbeNames(header)
      ensures paramStepInfo == old(paramStepInfo) && data == old(data)
    {
      var fields := Split(header, '\t');
      if Contains(fields[0], "Freq.") {
        fileType := Some(AcFrequencyPhase);
      } else if Contains(fields[0], "time") {
        fileType := Some(Transient);
      }
      ghost var kind := fileType;
      assert kind == if HeaderKind(header) == Invalid then old(fileType) else Some(HeaderKind(header));
      ghost var before := probePoints;
      for i := 1 to |fields|
        invariant fileType == kind && paramStepInfo == old(paramStepInfo) && data == old(data)
        invariant probePoints == before + ProbeNames(header)[..i - 1]
      {
        assert ProbeNames(header)[..i] == ProbeNames(header)[..i - 1] + [RStrip(fields[i])];
        probePoints := probePoints + [RStrip(fields[i])];
      }
      assert ProbeNames(header)[..|fields| - 1] == ProbeNames(header);
    }

    /**
     * `_parse_freq_file`: step 0 gets an empty list, then each line is
     * either a step line, which switches the current step, or a frequency
     * record appended to the current step's list.
     */
    method ParseFreqFile(lines: seq<string>, conv: Converters) returns (error: Option<Error>)
      requires paramStepInfo != null
      modifies this, paramStepInfo
      ensures paramStepInfo == old(paramStepInfo) && fileType == old(fileType) && probePoints == old(probePoints)
      ensures var p := Run(AcFrequencyPhase, probePoints, conv,
          State(0, old(paramStepInfo.paramLabel), old(paramStepInfo.values), old(data)[0 := []]), lines);
        && data == p.state.data && paramStepInfo.paramLabel == p.state.paramLabel && paramStepInfo.values == p.state.values
        && error == (if p.Stopped? then Some(p.error) else None)
    {
      ghost var start := State(0, paramStepInfo.paramLabel, paramStepInfo.values, data[0 := []]);
      var current := 0;
      data := data[current := []];
      for i := 0 to |lines|
        invariant paramStepInfo == old(paramStepInfo) && fileType == old(fileType) && probePoints == old(probePoints)
        invariant Run(AcFrequencyPhase, probePoints, conv, start, lines[..i]) ==
          Reading(State(current, paramStepInfo.paramLabel, paramStepInfo.values, data))
      {
        assert lines[..i + 1][..i] == lines[..i];
        var line := lines[i];
        if Contains(line, StepMarker) {
          var step := ParseParameterStep(line, conv.toInt);
          if step.Err? {
            RunStopped(AcFrequencyPhase, probePoints, conv, start, lines, i + 1);
            return Some(step.error);
          }
          current := step.value;
          data := data[current := []];
          continue;
        }
        var record := DecodeFreq(line, conv.toFloat);
        if record.Err? {
          RunStopped(AcFrequencyPhase, probePoints, conv, start, lines, i + 1);
          return Some(record.error);
        }
        data := data[current := data[current] + [record.value]];
      }
      assert lines[..|lines|] == lines;
      return None;
    }

    /**
     * `parse_transient_file`: as `ParseFreqFile`, with each data line
     * decoded as a time and one value per probe point.
     */
    method ParseTransientFile(lines: seq<string>, conv: Converters) returns (error: Option<Error>)
      requires paramStepInfo != null
      modifies this, paramStepInfo
      ensures paramStepInfo == old(paramStepInfo) && fileType == old(fileType) && probePoints == old(probePoints)
      ensures var p := Run(Transient, probePoints, conv,
          State(0, old(paramStepInfo.paramLabel), old(paramStepInfo.values), old(data)[0 := []]), lines);
        && data == p.state.data && paramStepInfo.paramLabel == p.state.paramLabel && paramStepInfo.values == p.state.values
        && error == (if p.Stopped? then Some(p.error) else None)
    {
      ghost var start := State(0, paramStepInfo.paramLabel, paramStepInfo.values, data[0 := []]);
      var current := 0;
      data := data[current := []];
      for i := 0 to |lines|
        invariant paramStepInfo == old(paramStepInfo) && fileType == old(fileType) && probePoints == old(probePoints)
        invariant Run(Transient, probePoints, conv, start, lines[..i]) ==
          Reading(State(current, paramStepInfo.paramLabel, paramStepInfo.values, data))
      {
        assert lines[..i + 1][..i] == lines[..i];
        var line := lines[i];
        if Contains(line, StepMarker) {
          var step := ParseParameterStep(line, conv.toInt);
          if step.Err? {
            RunStopped(Transient, probePoints, conv, start, lines, i + 1);
            return Some(step.error);
          }
          current := step.value;
          data := data[current := []];
          continue;
        }
        var record := DecodeTransient(line, probePoints, conv.toFloat);
        if record.Err? {
          RunStopped(Transient, probePoints, conv, start, lines, i + 1);
          return Some(record.error);
        }
        data := data[current := data[current] + [record.value]];
      }
      assert lines[..|lines|] == lines;
      return None;
    }

    /**
     * `_parse_parameter_step`: matches the step pattern, records the label,
     * then the value under the run number, and returns the run number. A
     * line the pattern does not match changes nothing; a run text `int`
     * rejects leaves the label recorded and the values as they were.
     */
    method ParseParameterStep(line: string, toInt: string -> Option<int>) returns (r: Result<int, Error>)
      requires paramStepInfo != null
      modifies paramStepInfo
      ensures match ParseStepLine(line, toInt)
        case Unmatched =>
          && r == Err(StepLineMismatch)
          && paramStepInfo.paramLabel == old(paramStepInfo.paramLabel) && paramStepInfo.values == old(paramStepInfo.values)
        case BadRun(name) =>
          && r == Err(RunNotInteger)
          && paramStepInfo.paramLabel == Some(name) && paramStepInfo.values == old(paramStepInfo.values)
        case Stepped(name, value, run) =>
          && r == Ok(run)
          && paramStepInfo.paramLabel == Some(name) && paramStepInfo.values == old(paramStepInfo.values)[run := value]
    {
      var groups := ScanStep(line);
      if groups.None? {
        return Err(StepLineMismatch);
      }
      paramStepInfo.paramLabel := Some(groups.value.paramLabel);
      var run := toInt(groups.value.run);
      if run.None? {
        return Err(RunNotInteger);
      }
      paramStepInfo.values := paramStepInfo.values[run.value := groups.value.value];
      return Ok(run.value);
    }
  }
}
