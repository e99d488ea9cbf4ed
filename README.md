# LTspice export parser, modelled in Dafny

`LTSpiceDataAnalyzer` reads the text export that LTspice writes for a
simulation plot and turns it into step-indexed record lists. The model
follows that path.

- **Header.** The first line of the export is tab-separated. Its first
  field names the sweep:
  - a field containing `Freq.` means an AC analysis with magnitude in dB
    and phase in degrees;
  - otherwise, a field containing `time` means a transient analysis;
  - anything else means the file is not understood.

  The remaining fields, right-stripped, are the probe points.
- **Step lines.** Any later line that contains `Step Information:` is a
  step line. For example, `Step Information: R1=10k  (Run: 2/5)` names the
  stepped parameter, its value for this run and the run number. The run
  number becomes the current step, and that step gets a fresh, empty
  record list.
- **Data lines.** Every other line is a data line, appended to the current
  step's list:
  - in an AC export it has the form `freq<TAB>(amplitudedB,phase°)`;
  - in a transient export it is a time followed by one value per probe
    point.

The modules follow the structure of the program:

| module | contents |
|---|---|
| `Wrappers` | `Option` and `Result` |
| `Format` | the export's vocabulary: the sweep kinds (`FileType`), the record shapes, the error causes, and the number converters |
| `Text` | the string operations the code relies on: `in`, `split('\t')`, `rstrip()` |
| `Header` | classification of the header line and extraction of the probe names |
| `StepLine` | the step-line regular expression, written as a deterministic scanner and proved equal to a declarative description of the lines it matches, including the one place where it backtracks |
| `Records` | the frequency-line regular expression, the decoder for frequency lines and the decoder for transient lines |
| `Parser` | the line loop and `parse_data_file`, as functions over the lines of the file, with the properties of whole parses |
| `Analyzer` | the analyzer object itself: `StepInfo` and `LtSpiceDataAnalyzer` as classes whose methods update their fields line by line, each proved equal to the `Parser` functions |

Number parsing (`float`, `int`) is not modelled. Each operation takes it
as a parameter (`Converters`), a partial function from text to number, so
every result holds for any conversion.

Each Python exception becomes an error value that names its cause, and the
parse stops there. The analyzer's fields keep the state that the code had
reached when it raised.

### Where the model follows the code over its documentation

- **A repeated step number.** When a step number occurs again, its record
  list is replaced by a fresh empty one (main.py:86 and main.py:104). It
  is not added to. `FeedStepLine` states this.
- **An unrecognised header.** The file type stays INVALID, no data is
  read, and no error is raised. `ParseFileInvalid` states this.
- **A run number that `int` rejects.** It fails at main.py:124, before the
  `try` at main.py:126. So the label has already been written, the value
  has not, and the `sys.exit` at main.py:129 can never be reached. The
  model stops with `RunNotInteger` after recording the label; see
  `FeedBadStepLine` and `ParseParameterStep`.
- **An empty file.** `readline()` returns `""`, which gives one empty
  header field, so the file type is INVALID. `ParseFileEmpty` states this.
- **A probe name that occurs twice.** The value from the last field with
  that name wins; see `OutputsLast` and `TransientRecordOfContents`.
- **Backtracking in the step pattern.** The pattern is
  `[^=]*=([^\( ]*)[ (]*Run: `. The value group stops at the first space
  or `(`. When this longest value is not followed by `Run: n/m)`, the
  regular expression backtracks: it gives back four characters when the
  value ends in `Run:`, and otherwise there is no match. For example, in
  `R=1kRun: 1/3)` the value is `1k`. In `R=1kRun: Run: 1/3)` the value is
  `1kRun:` and nothing is given back. The scanner reproduces this.
  `ScanStepLongest` proves that the match it returns is the one with the
  longest value. `ScanStepComplete` and
  `ParseStepLineOfShape` prove that the match is unique when a separator
  is present. `FeedStepLine` and `FeedBadRun` state what the loop does with
  the chosen match, with or without a separator.

## Model

| member | source | states |
|---|---|---|
| Text.Contains | main.py:62 | `t in s` holds exactly when `t` occurs in `s` at some index |
| Text.Split | main.py:61 | `split` returns at least one field, no field contains the separator, and joining the fields with the separator gives back the line |
| Text.SplitJoin | main.py:61 | splitting a join of separator-free fields gives back those fields (the inverse of `Split`) |
| Text.RStrip | main.py:70 | `rstrip()` returns a prefix of the text that does not end in whitespace, and everything it removed is whitespace |
| Text.RStripPadded | main.py:70 | right-stripping a name followed by whitespace padding gives back the name |
| Header.Classify | main.py:62-65 | AC_FREQUENCY_PHASE exactly when the axis contains `Freq.`; TRANSIENT exactly when it contains `time` but not `Freq.`; INVALID exactly when it contains neither |
| Header.HeaderKind | main.py:61-65 | the sweep kind of the header's first tab field; its meaning is given by `Classify` and `HeaderRoundTrip` |
| Header.ProbeNames | main.py:67-70 | the right-stripped fields after the first; their meaning is given by `HeaderRoundTrip` and `ProbeNamesOfExport` |
| Header.HeaderRoundTrip | main.py:60-70 | for a header written as an axis field followed by probe fields: the kind read from it is the axis's classification, and the probe points are the probe fields, each right-stripped, in order |
| Header.ProbeNamesOfExport | main.py:67-70 | the trailing whitespace and line end after the last probe name do not reach the probe points: the names come back exactly |
| StepLine.ScanStep | main.py:119 | the scanner for the step pattern; `ScanStepLongest` characterises it as the regular expression's choice, with `ScanStepSound` and `ScanStepComplete` |
| StepLine.ParseStepLine | main.py:119-127 | the step pattern's groups with the run converted by `int`; `ParseStepLineUnmatched`, `ParseStepLineStepped` and `ParseStepLineOfShape` give its meaning |
| StepLine.ScanStepSound | main.py:119 | every match the scanner returns is a line of the step pattern's shape, with that label, value, run and total |
| StepLine.ScanStepComplete | main.py:119 | every line of the step pattern's shape is matched, with the same label and a value at least as long; with a non-empty separator, the match is exactly that shape |
| StepLine.ScanStepLongest | main.py:119 | the scanner returns `g` exactly when `g` has the pattern's shape and no shape of the line has a longer value (the greedy choice of the regular expression) |
| StepLine.StepShapeUnique | main.py:119 | two shapes of a line with values of the same length are the same shape |
| StepLine.StepShapeOfText | main.py:119 | a line that begins with the text of a step line, built from groups that avoid the pattern's stop characters, has that shape |
| StepLine.StepTextOfShape | main.py:119 | a line of the step shape begins with the text built from its groups |
| StepLine.RunTailSound | main.py:119 | the `Run: n/m)` scan yields a run and a total of the tail's shape |
| StepLine.RunTailComplete | main.py:119 | a `Run: n/m)` tail is found at its exact position, with its run and total |
| StepLine.ParseStepLineUnmatched | main.py:119-122 | a step line is rejected as unmatched exactly when no shape of the step pattern fits it |
| StepLine.ParseStepLineStepped | main.py:119-127 | an accepted step line has the pattern's shape; its label and value are the groups, and its run is the integer value of the run group |
| StepLine.ParseStepLineOfShape | main.py:119-131 | a line of the step shape with a separator parses to its own label and value, with the run converted, or to `BadRun` with its label when `int` rejects the run |
| Records.MatchFreq | main.py:88 | the scanner for the frequency pattern; `MatchFreqMatches` characterises it |
| Records.MatchFreqMatches | main.py:88 | the frequency scanner returns `g` exactly when the line has the pattern's shape with groups `g` |
| Records.MatchFreqSound | main.py:88 | every match of the frequency scanner has the pattern's shape |
| Records.MatchFreqComplete | main.py:88 | every line of the pattern's shape is matched, with its own groups |
| Records.FreqShapeOfText | main.py:88 | a line that begins with `f<TAB>(adB,p°)`, with groups free of the stop characters, has that shape |
| Records.FreqTextOfShape | main.py:88 | a line of the frequency shape begins with the text built from its groups |
| Records.DecodeFreq | main.py:88-96 | a decoded frequency line is a frequency record; a failure is either a line the pattern does not match or a field `float` rejects |
| Records.DecodeFreqMismatch | main.py:88-91 | a frequency line fails to match exactly when no groups give it the pattern's shape |
| Records.DecodeFreqOfShape | main.py:92-96 | a line of the frequency shape decodes to the converted frequency, amplitude and phase, or fails on the number format |
| Records.DecodeFreqSound | main.py:92-96 | every decoded record comes from groups of the pattern's shape, each field being the conversion of its group |
| Records.DecodeFreqOfText | main.py:88-96 | a line written from frequency, amplitude and phase texts is matched back to those texts, and it decodes exactly when all three convert |
| Records.Outputs | main.py:114-115 | the output dict filled over the probe points; `OutputsDefined`, `OutputsKeys` and `OutputsLast` give its meaning |
| Records.OutputsDefined | main.py:114-115 | the output map exists exactly when every value field converts |
| Records.OutputsKeys | main.py:114-115 | the output map's keys are exactly the probe points |
| Records.OutputsLast | main.py:114-115 | each probe maps to the converted field of its last occurrence among the probe points |
| Records.OutputsFailAt | main.py:114-115 | one field that does not convert makes the whole line fail |
| Records.TransientRecordOf | main.py:106-115 | a decoded transient line is a transient record; a failure is either a wrong field count or a field `float` rejects |
| Records.TransientRecordOfFails | main.py:106-115 | the field count is rejected exactly when the line does not have one field more than there are probe points; the line decodes exactly when the field count is right and every field converts |
| Records.TransientRecordOfContents | main.py:110-115 | the record's time is the first field converted; its outputs are keyed by the probe points, each the converted field that follows its last occurrence |
| Records.TransientRecordOfJoin | main.py:106-115 | a line written as a time and one value per probe decodes exactly when all of them convert |
| Records.DecodeTransient | main.py:106-115 | the loop that fills the output dict computes `TransientRecordOf` |
| Parser.Start | main.py:81-82 | the start state, step 0 with an empty list, satisfies the loop invariant: the current step has a record list |
| Parser.DecodeRecord | main.py:88-115 | a decoded data line is a frequency record exactly when the sweep is AC |
| Parser.StepFeed | main.py:84-87 | a step line handled by `_parse_parameter_step` and the loop; `FeedStepLine`, `FeedBadRun` and `FeedBadStepLine` give its meaning |
| Parser.Feed | main.py:83-96 | a line read without error leaves a current step that has a record list |
| Parser.Run | main.py:83-116 | the line loop keeps that invariant for all lines read |
| Parser.RunStopped | main.py:83-116 | once a line raised, no later line changes the outcome |
| Parser.RunFirstFailure | main.py:83-116 | the outcome of a failing parse is the failure of its first failing line, with the state reached just before it |
| Parser.DecodeAllSnoc | main.py:92-96 | the reference decoding of the lines one after another extends by one record per line until the first failure |
| Parser.RunWithoutSteps | main.py:80-116 | without step lines, all records land in step 0's list in the order of the lines; the parse stops on exactly the reference's first failure; no label or value is recorded |
| Parser.ParseFileWithoutSteps | main.py:48-116 | for a whole file with a recognised header and no step lines: data has the single key 0, holding the decoded records, and the error is the first failure |
| Parser.RunKeys | main.py:84-86 | while the parse goes on, the keys of data are 0 and the run numbers of the step lines read so far, and the keys of the step values are those run numbers |
| Parser.StepShapeMarked | main.py:84 | every line of the step pattern's shape contains the step marker, so the loop routes it to the step parser |
| Parser.FeedStepLine | main.py:84-87 | a step line read with the pattern's choice of match (the longest value, with or without a separator) makes its run the current step with an empty list, replacing any list that run had; it records the label and the run's value; every other step's records and values stay as they were |
| Parser.FeedBadRun | main.py:123-124 | a step line whose run `int` rejects, read with the pattern's choice of match, stops the parse with the line's label recorded and nothing else changed |
| Parser.FeedBadStepLine | main.py:118-129 | a marked line that does not fit the step pattern stops the parse with the state unchanged; when the scanner's run group is one `int` rejects, the parse stops with `RunNotInteger` and the scanner's label recorded, nothing else changed |
| Parser.FeedDataLine | main.py:88-116 | a data line appends its decoded record to the current step's list and changes nothing else, or stops the parse with the decoder's error and the state unchanged |
| Parser.ParseFile | main.py:48-76 | `parse_data_file` over the lines of a file; `ParseFileWithoutSteps`, `ParseFileInvalid`, `ParseFileEmpty` and `Run`'s lemmas give its meaning, and `LtSpiceDataAnalyzer.ParseDataFile` is proved equal to it |
| Parser.ParseFileInvalid | main.py:62-76 | a header naming neither sweep gives file type INVALID, the probe points, no label, no values, empty data and no error, whatever follows |
| Parser.ParseFileEmpty | main.py:60-65 | an empty file gives file type INVALID and nothing else |
| Analyzer.StepInfo.constructor | main.py:35-37 | a new step record has no label and no values |
| Analyzer.LtSpiceDataAnalyzer.constructor | main.py:39-46 | a new analyzer has no file type, no step information, no probes and no data |
| Analyzer.LtSpiceDataAnalyzer.ParseDataFile | main.py:48-76 | the analyzer's file type, probe points, step label, step values, data and raised error are those of `Parser.ParseFile` on the file's lines, with fresh step information |
| Analyzer.LtSpiceDataAnalyzer.ReadHeader | main.py:60-71 | sets the file type from the header's first field (left as it was when that field names no sweep) and appends the header's probe names; nothing else changes |
| Analyzer.LtSpiceDataAnalyzer.ParseFreqFile | main.py:80-96 | leaves data and step information as the AC loop `Parser.Run` computes from step 0 with an empty list, and returns its error |
| Analyzer.LtSpiceDataAnalyzer.ParseTransientFile | main.py:98-116 | leaves data and step information as the transient loop `Parser.Run` computes from step 0 with an empty list, and returns its error |
| Analyzer.LtSpiceDataAnalyzer.ParseParameterStep | main.py:118-131 | an unmatched line changes nothing and is an error; a run that is not an integer records the label only and is an error; otherwise it records the label and the run's value and returns the run |

## Left out

- Opening the file (main.py:53-57): the source handles `IOError` by logging and returning, and the model does not include this path. The file is given as its decoded lines. Each line keeps its line terminator, and the header is the first line, or `""` for an empty file.
- cp1252 decoding (main.py:54): the characters are given, not the bytes.
- Closing the file (main.py:78): this is I/O.
- `float` and `int` conversion (main.py:93-95, 111, 115, 124, 127): these are the `Converters` parameters; Python's number syntax is not modelled.
- Logging and output: the `log` field, every `self.log` call and the `print` at main.py:68. None of these affects the parse.
- `FileType.AC_REAL_IMAG`, `DataType`, and the `data_type` and `runs_label` fields (main.py:29-33, 43, 45): the core never assigns or reads them.
- The kind of exception raised: errors are named by cause, not by exception class.
- A failed match at main.py:88 or main.py:119 raises `AttributeError` on `None.groups()`, so the group-count checks at main.py:89 and main.py:120, and the `InvalidDataException` they would raise, never fire.
  - Records.TransientRecordOf: the key order of Python dicts is not modelled. The model uses Dafny maps, which have no order, for the `output` dict of a transient record, for `param_step_info.values` and for `data`. In the source, `output` is ordered like the probe points (main.py:114-115), `values` and `data` follow the order of the step lines, and `plot` iterates `values` in that order. The model states the key sets and the values, not the order.
- Analyzer.StepInfo: `values` is a class attribute in the source (main.py:37), one dict shared by every `StepInfo`, so values from an earlier parse stay visible in later ones. The model gives each parse a fresh, empty map. Aliasing across analyzers is outside the model.
- Analyzer.LtSpiceDataAnalyzer.constructor: `probe_points` and `data` start as `None` in the source (main.py:44, 46); the model starts them empty. At the start of each parse, `parse_data_file` sets both fields to empty values, so every parse result is unaffected.
- Plotting, the command-line entry point and the `__main__` block: these are outside the parser.
