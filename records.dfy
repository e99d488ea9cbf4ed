/**
 * The two data line decoders. A line of an AC sweep export reads
 * `<frequency>\t(<amplitude>dB,<phase>°)` and is taken apart by the pattern
 *
 *   ^([^\t]*)\t\(([^dB]*)dB,([^°]*)°\)
 *
 * (`_parse_freq_file`); a line of a transient export is split on tabs into
 * the time and one field per probe (`parse_transient_file`). Each numeric
 * field then goes through `float`, kept abstract as a converter.
 */
module Records {
  import opened Wrappers
  import opened Text
  import opened Format

  /** The degree sign: byte 0xB0 of a cp1252 file decodes to U+00B0. */
  const Degree: char := '\U{00B0}'

  /** The characters the amplitude class `[^dB]` excludes. */
  const DecibelStops: set<char> := {'d', 'B'}

  /** The three groups of a matched frequency line: frequency, amplitude and phase, as text. */
  datatype FreqGroups = FreqGroups(frequency: string, amplitude: string, phase: string)

  /**
   * The frequency pattern matched at the start of `line`. Each group is a
   * negated class followed by a character it excludes, so each ends at the
   * first such character and the pattern never backtracks.
   */
  function MatchFreq(line: string): Option<FreqGroups>
  {
    var tab := SkipOutside(line, 0, {'\t'});
    if tab + 1 >= |line| || line[tab + 1] != '(' then None
    else
      var db := SkipOutside(line, tab + 2, DecibelStops);
      if db + 2 >= |line| || line[db] != 'd' || line[db + 1] != 'B' || line[db + 2] != ',' then None
      else
        var deg := SkipOutside(line, db + 3, {Degree});
        if deg + 1 >= |line| || line[deg + 1] != ')' then None
        else Some(FreqGroups(line[..tab], line[tab + 2..db], line[db + 3..deg]))
  }

  /**
   * `line` starts with a match of the frequency pattern whose groups are
   * `g`: the frequency, "\t(", the amplitude, "dB,", the phase, "°)", each
   * group free of the characters its class excludes.
   */
  ghost predicate FreqShape(line: string, g: FreqGroups)
  {
    && FreqHeadAt(line, g)
    && AmplitudeAt(line, |g.frequency| + 2, g.amplitude)
    && PhaseAt(line, |g.frequency| + 2 + |g.amplitude| + 3, g.phase)
    && Avoids(g.frequency, {'\t'}) && Avoids(g.amplitude, DecibelStops) && Avoids(g.phase, {Degree})
  }

  /** The frequency begins `line`, followed by "\t(". */
  ghost predicate FreqHeadAt(line: string, g: FreqGroups)
  {
    HasAt(line, 0, g.frequency) && |g.frequency| + 1 < |line| && line[|g.frequency|] == '\t' && line[|g.frequency| + 1] == '('
  }

  /** The amplitude occurs at `i`, followed by "dB,". */
  ghost predicate AmplitudeAt(line: string, i: nat, amplitude: string)
  {
    && HasAt(line, i, amplitude) && i + |amplitude| + 2 < |line|
    && line[i + |amplitude|] == 'd' && line[i + |amplitude| + 1] == 'B' && line[i + |amplitude| + 2] == ','
  }

  /** The phase occurs at `i`, followed by "°)". */
  ghost predicate PhaseAt(line: string, i: nat, phase: string)
  {
    HasAt(line, i, phase) && i + |phase| + 1 < |line| && line[i + |phase|] == Degree && line[i + |phase| + 1] == ')'
  }

  /** The text a match with groups `g` consumes. */
  function FreqText(g: FreqGroups): string
  {
    g.frequency + (['\t'] + (['('] + AmplitudeText(g)))
  }

  /** The part of `FreqText` from the amplitude on. */
  function AmplitudeText(g: FreqGroups): string
  {
    g.amplitude + (['d'] + (['B'] + ([','] + PhaseText(g.phase))))
  }

  /** The part of `FreqText` from the phase on. */
  function PhaseText(phase: string): string
  {
    phase + ([Degree] + [')'])
  }

  /** The phase text occurs at `i` exactly when the phase does, followed by "°)". */
  lemma PhaseTextAt(line: string, i: nat, phase: string)
    ensures HasAt(line, i, PhaseText(phase)) <==> PhaseAt(line, i, phase)
  {
    HasAtConcat(line, i, phase, [Degree] + [')']);
    HasAtConcat(line, i + |phase|, [Degree], [')']);
    HasAtChar(line, i + |phase|, Degree);
    HasAtChar(line, i + |phase| + 1, ')');
  }

  /** The amplitude text occurs at `i` exactly when the amplitude does, followed by "dB," and the phase text. */
  lemma AmplitudeTextAt(line: string, i: nat, g: FreqGroups)
    ensures HasAt(line, i, AmplitudeText(g)) <==>
      AmplitudeAt(line, i, g.amplitude) && HasAt(line, i + |g.amplitude| + 3, PhaseText(g.phase))
  {
    var k := i + |g.amplitude|;
    HasAtConcat(line, i, g.amplitude, ['d'] + (['B'] + ([','] + PhaseText(g.phase))));
    HasAtConcat(line, k, ['d'], ['B'] + ([','] + PhaseText(g.phase)));
    HasAtConcat(line, k + 1, ['B'], [','] + PhaseText(g.phase));
    HasAtConcat(line, k + 2, [','], PhaseText(g.phase));
    HasAtChar(line, k, 'd');
    HasAtChar(line, k + 1, 'B');
    HasAtChar(line, k + 2, ',');
  }

  /** The frequency text begins `line` exactly when the frequency does, followed by "\t(" and the amplitude text. */
  lemma FreqTextAt(line: string, g: FreqGroups)
    ensures FreqText(g) <= line <==> FreqHeadAt(line, g) && HasAt(line, |g.frequency| + 2, AmplitudeText(g))
  {
    var k := |g.frequency|;
    PrefixHasAt(line, FreqText(g));
    HasAtConcat(line, 0, g.frequency, ['\t'] + (['('] + AmplitudeText(g)));
    HasAtConcat(line, k, ['\t'], ['('] + AmplitudeText(g));
    HasAtConcat(line, k + 1, ['('], AmplitudeText(g));
    HasAtChar(line, k, '\t');
    HasAtChar(line, k + 1, '(');
  }

  /** What `MatchFreq` returns is a match of the pattern. */
  lemma MatchFreqSound(line: string)
    requires MatchFreq(line).Some?
    ensures FreqShape(line, MatchFreq(line).value)
  {
    var tab := SkipOutside(line, 0, {'\t'});
    var db := SkipOutside(line, tab + 2, DecibelStops);
    var deg := SkipOutside(line, db + 3, {Degree});
    MatchFreqAt(line, tab, db, deg);
    FreqShapeOfStops(line, tab, db, deg);
  }

  /** The slices between the stops `MatchFreq` finds form a match. */
  lemma FreqShapeOfStops(line: string, tab: nat, db: nat, deg: nat)
    requires tab + 1 < |line| && SkipOutside(line, 0, {'\t'}) == tab && line[tab + 1] == '('
    requires db + 2 < |line| && SkipOutside(line, tab + 2, DecibelStops) == db
    requires line[db] == 'd' && line[db + 1] == 'B' && line[db + 2] == ','
    requires deg + 1 < |line| && SkipOutside(line, db + 3, {Degree}) == deg && line[deg + 1] == ')'
    ensures FreqShape(line, FreqGroups(line[..tab], line[tab + 2..db], line[db + 3..deg]))
  {
    SliceHasAt(line, 0, tab);
    SliceHasAt(line, tab + 2, db);
    SliceHasAt(line, db + 3, deg);
    AvoidsSlice(line, 0, tab, {'\t'});
    AvoidsSlice(line, tab + 2, db, DecibelStops);
    AvoidsSlice(line, db + 3, deg, {Degree});
    assert line[..tab] == line[0..tab];
  }

  /** Every match of the pattern is the one `MatchFreq` finds. */
  lemma MatchFreqComplete(line: string, g: FreqGroups)
    requires FreqShape(line, g)
    ensures MatchFreq(line) == Some(g)
  {
    var tab := |g.frequency|;
    var db := tab + 2 + |g.amplitude|;
    var deg := db + 3 + |g.phase|;
    FreqStops(line, g);
    FreqSlices(line, g);
    MatchFreqAt(line, tab, db, deg);
  }

  /** In a match, each group ends at the first character its class excludes. */
  lemma FreqStops(line: string, g: FreqGroups)
    requires FreqShape(line, g)
    ensures var tab := |g.frequency|; var db := tab + 2 + |g.amplitude|;
      && SkipOutside(line, 0, {'\t'}) == tab
      && SkipOutside(line, tab + 2, DecibelStops) == db
      && SkipOutside(line, db + 3, {Degree}) == db + 3 + |g.phase|
  {
    var tab := |g.frequency|;
    var db := tab + 2 + |g.amplitude|;
    SkipOutsideOver(line, 0, g.frequency, {'\t'});
    SkipOutsideOver(line, tab + 2, g.amplitude, DecibelStops);
    SkipOutsideOver(line, db + 3, g.phase, {Degree});
  }

  /** In a match, the groups are the slices of the line between the stops. */
  lemma FreqSlices(line: string, g: FreqGroups)
    requires FreqShape(line, g)
    ensures var tab := |g.frequency|; var db := tab + 2 + |g.amplitude|;
      && line[..tab] == g.frequency
      && line[tab + 2..db] == g.amplitude
      && line[db + 3..db + 3 + |g.phase|] == g.phase
  {
    var tab := |g.frequency|;
    var db := tab + 2 + |g.amplitude|;
    HasAtSlice(line, 0, g.frequency);
    HasAtSlice(line, tab + 2, g.amplitude);
    HasAtSlice(line, db + 3, g.phase);
    assert line[..tab] == line[0..tab];
  }

  /** How `MatchFreq` decides once the three stops it scans for are known to be where the pattern needs them. */
  lemma MatchFreqAt(line: string, tab: nat, db: nat, deg: nat)
    requires tab + 1 < |line| && SkipOutside(line, 0, {'\t'}) == tab && line[tab + 1] == '('
    requires db + 2 < |line| && SkipOutside(line, tab + 2, DecibelStops) == db
    requires line[db] == 'd' && line[db + 1] == 'B' && line[db + 2] == ','
    requires deg + 1 < |line| && SkipOutside(line, db + 3, {Degree}) == deg && line[deg + 1] == ')'
    ensures MatchFreq(line) == Some(FreqGroups(line[..tab], line[tab + 2..db], line[db + 3..deg]))
  {
  }

  /** `MatchFreq` returns `g` exactly when the line starts with a match whose groups are `g`. */
  lemma MatchFreqMatches(line: string, g: FreqGroups)
    ensures MatchFreq(line) == Some(g) <==> FreqShape(line, g)
  {
    if MatchFreq(line) == Some(g) {
      MatchFreqSound(line);
    }
    if FreqShape(line, g) {
      MatchFreqComplete(line, g);
    }
  }

  /** A line that starts with the text of groups free of their excluded characters matches with those groups. */
  lemma FreqShapeOfText(line: string, g: FreqGroups)
    requires FreqText(g) <= line
    requires Avoids(g.frequency, {'\t'}) && Avoids(g.amplitude, DecibelStops) && Avoids(g.phase, {Degree})
    ensures FreqShape(line, g)
  {
    var db := |g.frequency| + 2 + |g.amplitude|;
    FreqTextAt(line, g);
    AmplitudeTextAt(line, |g.frequency| + 2, g);
    PhaseTextAt(line, db + 3, g.phase);
  }

  /** Every match starts with the text of its groups. */
  lemma FreqTextOfShape(line: string, g: FreqGroups)
    requires FreqShape(line, g)
    ensures FreqText(g) <= line
  {
    var db := |g.frequency| + 2 + |g.amplitude|;
    PhaseTextAt(line, db + 3, g.phase);
    AmplitudeTextAt(line, |g.frequency| + 2, g);
    FreqTextAt(line, g);
  }

  /**
   * A frequency line decoded as `_parse_freq_file` does: the groups of the
   * pattern, each converted by `float`.
   */
  function DecodeFreq(line: string, toFloat: string -> Option<real>): (r: Result<Record, Error>)
    ensures r.Ok? ==> r.value.FreqRecord?
    ensures r.Err? ==> r.error == DataLineMismatch || r.error == NumberFormat
  {
    match MatchFreq(line)
    case None => Err(DataLineMismatch)
    case Some(g) =>
      match (toFloat(g.frequency), toFloat(g.amplitude), toFloat(g.phase))
      case (Some(f), Some(a), Some(p)) => Ok(FreqRecord(f, a, p))
      case _ => Err(NumberFormat)
  }

  /** A line is rejected as not matching exactly when the pattern has no match on it. */
  lemma DecodeFreqMismatch(line: string, toFloat: string -> Option<real>)
    ensures DecodeFreq(line, toFloat) == Err(DataLineMismatch) <==> !exists g :: FreqShape(line, g)
  {
    if MatchFreq(line).Some? {
      MatchFreqSound(line);
    } else {
      forall g | FreqShape(line, g) ensures false {
        MatchFreqComplete(line, g);
      }
    }
  }

  /**
   * A line that matches with groups `g` decodes to the record of the three
   * converted groups, or fails on a number when one of them does not
   * convert.
   */
  lemma DecodeFreqOfShape(line: string, toFloat: string -> Option<real>, g: FreqGroups)
    requires FreqShape(line, g)
    ensures DecodeFreq(line, toFloat) ==
      if toFloat(g.frequency).Some? && toFloat(g.amplitude).Some? && toFloat(g.phase).Some?
      then Ok(FreqRecord(toFloat(g.frequency).value, toFloat(g.amplitude).value, toFloat(g.phase).value))
      else Err(NumberFormat)
  {
    MatchFreqComplete(line, g);
  }

  /** The record decoded from a line comes from a match whose groups convert to its three numbers. */
  lemma DecodeFreqSound(line: string, toFloat: string -> Option<real>) returns (g: FreqGroups)
    requires DecodeFreq(line, toFloat).Ok?
    ensures FreqShape(line, g)
    ensures toFloat(g.frequency) == Some(DecodeFreq(line, toFloat).value.frequency)
    ensures toFloat(g.amplitude) == Some(DecodeFreq(line, toFloat).value.amplitude)
    ensures toFloat(g.phase) == Some(DecodeFreq(line, toFloat).value.phase)
  {
    g := MatchFreq(line).value;
    MatchFreqSound(line);
  }

  /**
   * The line LTspice writes for groups free of their excluded characters,
   * followed by anything (the line terminator), decodes to those groups'
   * numbers.
   */
  lemma DecodeFreqOfText(g: FreqGroups, rest: string, toFloat: string -> Option<real>)
    requires Avoids(g.frequency, {'\t'}) && Avoids(g.amplitude, DecibelStops) && Avoids(g.phase, {Degree})
    ensures MatchFreq(FreqText(g) + rest) == Some(g)
    ensures DecodeFreq(FreqText(g) + rest, toFloat).Ok? <==>
      toFloat(g.frequency).Some? && toFloat(g.amplitude).Some? && toFloat(g.phase).Some?
  {
    FreqShapeOfText(FreqText(g) + rest, g);
    MatchFreqComplete(FreqText(g) + rest, g);
  }

  /** Probe `i` is the last probe with its name: a later probe of the same name overwrites its value. */
  ghost predicate LastOccurrence(probes: seq<string>, i: int)
  {
    0 <= i < |probes| && forall j :: i < j < |probes| ==> probes[j] != probes[i]
  }

  /**
   * The `output` dict of a transient record, as the loop over
   * `enumerate(self.probe_points)` fills it: probe by probe, each field
   * converted by `float`, the first failure ending the decode.
   */
  function Outputs(probes: seq<string>, fields: seq<string>, toFloat: string -> Option<real>): Option<map<string, real>>
    requires |probes| == |fields|
    decreases |probes|
  {
    if |probes| == 0 then Some(map[])
    else
      var n := |probes| - 1;
      match Outputs(probes[..n], fields[..n], toFloat)
      case None => None
      case Some(m) =>
        match toFloat(fields[n])
        case None => None
        case Some(v) => Some(m[probes[n] := v])
  }

  /** The outputs are filled exactly when every field converts. */
  lemma {:induction false} OutputsDefined(probes: seq<string>, fields: seq<string>, toFloat: string -> Option<real>)
    requires |probes| == |fields|
    ensures Outputs(probes, fields, toFloat).Some? <==> forall i :: 0 <= i < |fields| ==> toFloat(fields[i]).Some?
    decreases |probes|
  {
    if |probes| > 0 {
      var n := |probes| - 1;
      OutputsDefined(probes[..n], fields[..n], toFloat);
      assert forall i :: 0 <= i < n ==> fields[..n][i] == fields[i];
    }
  }

  /** Filled outputs are keyed by exactly the probe names. */
  lemma {:induction false} OutputsKeys(probes: seq<string>, fields: seq<string>, toFloat: string -> Option<real>)
    requires |probes| == |fields| && Outputs(probes, fields, toFloat).Some?
    ensures Outputs(probes, fields, toFloat).value.Keys == set p | p in probes
    decreases |probes|
  {
    if |probes| > 0 {
      var n := |probes| - 1;
      OutputsKeys(probes[..n], fields[..n], toFloat);
      assert probes == probes[..n] + [probes[n]];
      assert (set p | p in probes) == (set p | p in probes[..n]) + {probes[n]};
    }
  }

  /** In filled outputs each probe name holds the value of the field of its last probe. */
  lemma {:induction false} OutputsLast(probes: seq<string>, fields: seq<string>, toFloat: string -> Option<real>)
    requires |probes| == |fields| && Outputs(probes, fields, toFloat).Some?
    ensures forall i :: LastOccurrence(probes, i) ==>
      probes[i] in Outputs(probes, fields, toFloat).value && Some(Outputs(probes, fields, toFloat).value[probes[i]]) == toFloat(fields[i])
    decreases |probes|
  {
    if |probes| > 0 {
      var n := |probes| - 1;
      var ps, fs := probes[..n], fields[..n];
      OutputsLast(ps, fs, toFloat);
      forall i | LastOccurrence(probes, i)
        ensures probes[i] in Outputs(probes, fields, toFloat).value
        ensures Some(Outputs(probes, fields, toFloat).value[probes[i]]) == toFloat(fields[i])
      {
        if i < n {
          assert LastOccurrence(ps, i);
          assert ps[i] == probes[i] && fs[i] == fields[i];
        }
      }
    }
  }

  /**
   * A transient line decoded as `parse_transient_file` does: split on tabs,
   * refused unless there is one field per probe after the time, then the
   * time and every probe field converted by `float`.
   */
  function TransientRecordOf(line: string, probes: seq<string>, toFloat: string -> Option<real>): (r: Result<Record, Error>)
    ensures r.Ok? ==> r.value.TransientRecord?
    ensures r.Err? ==> r.error == FieldCountMismatch || r.error == NumberFormat
  {
    var fields := Split(line, '\t');
    if |fields| != |probes| + 1 then Err(FieldCountMismatch)
    else
      match toFloat(fields[0])
      case None => Err(NumberFormat)
      case Some(t) =>
        match Outputs(probes, fields[1..], toFloat)
        case None => Err(NumberFormat)
        case Some(m) => Ok(TransientRecord(t, m))
  }

  /**
   * A transient line is refused for its field count exactly when it does
   * not have one field per probe after the time, and decodes exactly when
   * that count is right and every field converts.
   */
  lemma TransientRecordOfFails(line: string, probes: seq<string>, toFloat: string -> Option<real>)
    ensures TransientRecordOf(line, probes, toFloat) == Err(FieldCountMismatch) <==> |Split(line, '\t')| != |probes| + 1
    ensures TransientRecordOf(line, probes, toFloat).Ok? <==>
      var fields := Split(line, '\t');
      |fields| == |probes| + 1 && forall i :: 0 <= i < |fields| ==> toFloat(fields[i]).Some?
  {
    var fields := Split(line, '\t');
    if |fields| == |probes| + 1 {
      OutputsDefined(probes, fields[1..], toFloat);
      assert forall i :: 1 <= i < |fields| ==> fields[1..][i - 1] == fields[i];
    }
  }

  /**
   * A decoded transient record holds the time field's number and, for each
   * probe name, the number of the field of the last probe with that name.
   */
  lemma TransientRecordOfContents(line: string, probes: seq<string>, toFloat: string -> Option<real>)
    requires TransientRecordOf(line, probes, toFloat).Ok?
    ensures var fields, r := Split(line, '\t'), TransientRecordOf(line, probes, toFloat).value;
      && |fields| == |probes| + 1
      && toFloat(fields[0]) == Some(r.time)
      && r.output.Keys == set p | p in probes
      && forall i :: LastOccurrence(probes, i) ==> probes[i] in r.output && Some(r.output[probes[i]]) == toFloat(fields[i + 1])
  {
    var fields := Split(line, '\t');
    var r := TransientRecordOf(line, probes, toFloat).value;
    OutputsKeys(probes, fields[1..], toFloat);
    OutputsLast(probes, fields[1..], toFloat);
    forall i | LastOccurrence(probes, i)
      ensures probes[i] in r.output && Some(r.output[probes[i]]) == toFloat(fields[i + 1])
    {
      assert fields[1..][i] == fields[i + 1];
    }
  }

  /**
   * The line LTspice writes for a time and one value per probe, joined by
   * tabs, passes the field count and decodes exactly when every field
   * converts.
   */
  lemma TransientRecordOfJoin(time: string, values: seq<string>, probes: seq<string>, toFloat: string -> Option<real>)
    requires |values| == |probes|
    requires '\t' !in time && forall i :: 0 <= i < |values| ==> '\t' !in values[i]
    ensures TransientRecordOf(Join([time] + values, '\t'), probes, toFloat).Ok? <==>
      toFloat(time).Some? && forall i :: 0 <= i < |values| ==> toFloat(values[i]).Some?
  {
    var fields := [time] + values;
    assert forall i :: 0 <= i < |fields| ==> '\t' !in fields[i] by {
      forall i | 0 <= i < |fields| ensures '\t' !in fields[i] {
        if i > 0 { assert fields[i] == values[i - 1]; }
      }
    }
    SplitJoin(fields, '\t');
    TransientRecordOfFails(Join(fields, '\t'), probes, toFloat);
    assert forall i :: 0 <= i < |values| ==> fields[i + 1] == values[i];
  }

  /** One failing field makes the whole outputs fail. */
  lemma OutputsFailAt(probes: seq<string>, fields: seq<string>, toFloat: string -> Option<real>, i: nat)
    requires |probes| == |fields| && i < |fields| && toFloat(fields[i]).None?
    ensures Outputs(probes, fields, toFloat).None?
  {
    OutputsDefined(probes, fields, toFloat);
  }

  /**
   * The transient decode as the source runs it: the field count check, the
   * time, then a loop over the probes that converts one field at a time
   * and stores it under the probe's name.
   */
  method DecodeTransient(line: string, probes: seq<string>, toFloat: string -> Option<real>) returns (r: Result<Record, Error>)
    ensures r == TransientRecordOf(line, probes, toFloat)
  {
    var matches := Split(line, '\t');
    if |matches| != |probes| + 1 {
      return Err(FieldCountMismatch);
    }
    var time := toFloat(matches[0]);
    if time.None? {
      return Err(NumberFormat);
    }
    ghost var fields := matches[1..];
    var output: map<string, real> := map[];
    for index := 0 to |probes|
      invariant Outputs(probes[..index], fields[..index], toFloat) == Some(output)
    {
      var value := toFloat(matches[index + 1]);
      assert fields[index] == matches[index + 1];
      if value.None? {
        OutputsFailAt(probes, fields, toFloat, index);
        return Err(NumberFormat);
      }
      assert probes[..index + 1][..index] == probes[..index];
      assert fields[..index + 1][..index] == fields[..index];
      output := output[probes[index] := value.value];
    }
    assert probes[..|probes|] == probes && fields[..|probes|] == fields;
    return Ok(TransientRecord(time.value, output));
  }
}
