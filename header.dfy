/**
 * The header classifier: the first line of the export, split on tab, names
 * the sweep axis in its first field and the probes in the others.
 */
module Header {
  import opened Text
  import opened Format

  /** The header line: the first line of the input, or "" for an empty file (what `readline()` returns then). */
  function HeaderLine(lines: seq<string>): string
  {
    if |lines| == 0 then "" else lines[0]
  }

  /** The sweep kind named by the axis field: a frequency axis is tested first, then a time axis. */
  function Classify(axis: string): (k: SweepKind)
    ensures k == AcFrequencyPhase <==> exists i :: OccursAt(axis, "Freq.", i)
    ensures k == Transient <==> (!exists i :: OccursAt(axis, "Freq.", i)) && exists i :: OccursAt(axis, "time", i)
    ensures k == Invalid <==> (!exists i :: OccursAt(axis, "Freq.", i)) && !exists i :: OccursAt(axis, "time", i)
  {
    if Contains(axis, "Freq.") then AcFrequencyPhase
    else if Contains(axis, "time") then Transient
    else Invalid
  }

  /** The sweep kind of a header line. */
  function HeaderKind(header: string): SweepKind
  {
    Classify(Split(header, '\t')[0])
  }

  /** The probe names of a header line: every field after the first, right-stripped, in order. */
  function ProbeNames(header: string): (names: seq<string>)
  {
    var fields := Split(header, '\t');
    seq(|fields| - 1, i requires 0 <= i < |fields| - 1 => RStrip(fields[i + 1]))
  }

  /**
   * A header written as the axis label and the probe names joined by tabs is
   * classified by its axis label and gives back the probe names, stripped.
   */
  lemma HeaderRoundTrip(axis: string, names: seq<string>)
    requires '\t' !in axis
    requires forall i :: 0 <= i < |names| ==> '\t' !in names[i]
    ensures HeaderKind(Join([axis] + names, '\t')) == Classify(axis)
    ensures |ProbeNames(Join([axis] + names, '\t'))| == |names|
    ensures forall i :: 0 <= i < |names| ==> ProbeNames(Join([axis] + names, '\t'))[i] == RStrip(names[i])
  {
    var fields := [axis] + names;
    assert forall i :: 0 <= i < |fields| ==> '\t' !in fields[i] by {
      forall i | 0 <= i < |fields| ensures '\t' !in fields[i] {
        if i > 0 { assert fields[i] == names[i - 1]; }
      }
    }
    SplitJoin(fields, '\t');
  }

  /**
   * The probe names of a typical export header, whose last name carries the
   * line terminator: every name without trailing white space comes back
   * unchanged, and terminators are dropped.
   */
  lemma ProbeNamesOfExport(axis: string, names: seq<string>, eol: string)
    requires '\t' !in axis && '\t' !in eol
    requires |names| >= 1
    requires forall i :: 0 <= i < |names| ==> '\t' !in names[i] && (names[i] == [] || !IsSpace(names[i][|names[i]| - 1]))
    requires forall i :: 0 <= i < |eol| ==> IsSpace(eol[i])
    ensures ProbeNames(Join([axis] + names[..|names| - 1] + [names[|names| - 1] + eol], '\t')) == names
  {
    var last := names[|names| - 1] + eol;
    var written := names[..|names| - 1] + [last];
    assert '\t' !in last;
    assert forall i :: 0 <= i < |written| ==> '\t' !in written[i] by {
      forall i | 0 <= i < |written| ensures '\t' !in written[i] {
        if i < |names| - 1 { assert written[i] == names[i]; }
      }
    }
    assert [axis] + names[..|names| - 1] + [last] == [axis] + written;
    HeaderRoundTrip(axis, written);
    var probes := ProbeNames(Join([axis] + written, '\t'));
    forall i | 0 <= i < |names| ensures probes[i] == names[i] {
      if i < |names| - 1 {
        RStripPadded(names[i], []);
        assert names[i] + [] == names[i];
      } else {
        RStripPadded(names[i], eol);
      }
    }
  }
}
