/**
 * The data model of an LTspice text export as `LTSpiceDataAnalyzer` builds
 * it: the sweep kind read from the header, one record per data line, and
 * the ways a parse can fail.
 */
module Format {
  import opened Wrappers

  /** `LTSpiceDataAnalyzer.FileType`, restricted to the members the parser assigns. */
  datatype SweepKind = Invalid | Transient | AcFrequencyPhase

  /**
   * One decoded data line. The source builds a dict per line:
   * `{'frequency', 'amplitude', 'phase'}` for an AC sweep and
   * `{'time', 'output'}` for a transient sweep, `output` mapping each probe
   * name to its value.
   */
  datatype Record =
    | FreqRecord(frequency: real, amplitude: real, phase: real)
    | TransientRecord(time: real, output: map<string, real>)

  /**
   * Why a parse stopped. The source raises; these name what it raises.
   */
  datatype Error =
    | StepLineMismatch     // a step line the step pattern does not match: `None.groups()` raises
    | RunNotInteger        // the run text of a step line is rejected by `int`
    | DataLineMismatch     // a frequency line the record pattern does not match: `None.groups()` raises
    | FieldCountMismatch   // a transient line with the wrong number of fields: `InvalidDataException`
    | NumberFormat         // a numeric field rejected by `float`

  /**
   * Python's `float` and `int` applied to a text field, kept abstract: `None`
   * where the conversion raises `ValueError`.
   */
  datatype Converters = Converters(toFloat: string -> Option<real>, toInt: string -> Option<int>)

  /** The marker whose presence anywhere in a line makes it a step line. */
  const StepMarker := "Step Information:"
}
