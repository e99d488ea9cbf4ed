/**
 * The step tracker's line parser, `_parse_parameter_step`. Its pattern
 *
 *   ^Step\ Information: ([^=]*)=([^\(\ ]*)[\ (]*Run: ([^\/]*)\/([^)]*)\)
 *
 * is recast as a scanner over indices of the line. Every group is a negated
 * class followed by a character the class excludes, so each group ends at
 * the first such character, with one exception: the value group `[^\( ]*`
 * may give back its last four characters when they read "Run:" and are
 * followed by " ". The regular expression tries the longest value first and
 * falls back to that shorter one, and so does `ScanStep`.
 */
module StepLine {
  import opened Wrappers
  import opened Text
  import opened Format

  /** The four groups of a matched step line: parameter label, value, run and total. */
  datatype StepGroups = StepGroups(paramLabel: string, value: string, run: string, total: string)

  const StepPrefix := "Step Information: "
  const RunTag := "Run: "

  /** The lengths of the two fixed texts, so that index arithmetic does not measure the literals. */
  const PrefixLength := 18
  const TagLength := 5

  /** The characters of the class `[\ (]` that separates the value from the run tag. */
  const Gap: set<char> := {' ', '('}

  /**
   * `Run: ([^\/]*)\/([^)]*)\)` matched at index `i` of `line`: the indices
   * of the "/" and of the ")" that end the run and the total.
   */
  function RunTailAt(line: string, i: nat): (r: Option<(nat, nat)>)
    requires i <= |line|
    ensures r.Some? ==> i + TagLength <= r.value.0 < r.value.1 < |line|
  {
    if !HasAt(line, i, RunTag) then None
    else
      var slash := SkipOutside(line, i + TagLength, {'/'});
      if slash == |line| then None
      else
        var close := SkipOutside(line, slash + 1, {')'});
        if close == |line| then None else Some((slash, close))
  }

  /**
   * Where the groups of a step match end, as indices of the line: the "="
   * after the label, the end of the value, the run tag, the "/" after the
   * run and the ")" after the total.
   */
  datatype StepSpans = StepSpans(eq: nat, valueEnd: nat, tag: nat, slash: nat, close: nat)

  /** The spans lie in order inside `line`, after the prefix. */
  predicate Ordered(line: string, sp: StepSpans)
  {
    PrefixLength <= sp.eq < sp.valueEnd <= sp.tag && sp.tag + TagLength <= sp.slash < sp.close < |line|
  }

  /** The four groups of a match with spans `sp`. */
  function GroupsAt(line: string, sp: StepSpans): StepGroups
    requires Ordered(line, sp)
  {
    StepGroups(line[PrefixLength..sp.eq], line[sp.eq + 1..sp.valueEnd], line[sp.tag + TagLength..sp.slash], line[sp.slash + 1..sp.close])
  }

  /** The separators `[\ (]*` consumes in a match with spans `sp`. */
  function GapAt(line: string, sp: StepSpans): string
    requires Ordered(line, sp)
  {
    line[sp.valueEnd..sp.tag]
  }

  /**
   * The spans of the match of the step pattern at the start of `line` in
   * which the value group takes `n` characters, if there is one. The label
   * runs to the first "="; after the value, `[\ (]*` is greedy, and giving
   * back separators cannot help because the run tag does not begin with one.
   */
  function SpansAt(line: string, n: nat): (r: Option<StepSpans>)
    ensures r.Some? ==> Ordered(line, r.value)
  {
    if !HasAt(line, 0, StepPrefix) then None
    else
      var eq := SkipOutside(line, PrefixLength, {'='});
      if eq == |line| || eq + 1 + n > SkipOutside(line, eq + 1, Gap) then None
      else
        var tag := SkipInside(line, eq + 1 + n, Gap);
        match RunTailAt(line, tag)
        case None => None
        case Some((slash, close)) => Some(StepSpans(eq, eq + 1 + n, tag, slash, close))
  }

  /**
   * The step pattern matched at the start of `line` with the preferences of
   * Python's `re.match`: the longest value `[^\( ]*` can take is tried first;
   * when the run tail does not follow it, the only shorter value that can
   * work is the one that leaves a trailing "Run:" (whose " " then starts the
   * tag). `ScanStepLongest` shows that this is the match with the longest
   * value.
   */
  function ScanStep(line: string): Option<StepGroups>
  {
    if !HasAt(line, 0, StepPrefix) then None
    else
      var eq := SkipOutside(line, PrefixLength, {'='});
      if eq == |line| then None
      else
        var longest := SkipOutside(line, eq + 1, Gap) - (eq + 1);
        Backtrack(line, longest)
  }

  /**
   * The match found from the longest value `longest` the value class
   * allows: that one if the run tail follows, otherwise the one four
   * characters shorter (the only retreat after which "Run: " can start).
   */
  function Backtrack(line: string, longest: nat): Option<StepGroups>
  {
    if SpansAt(line, longest).Some? then Some(GroupsAt(line, SpansAt(line, longest).value))
    else if longest < 4 then None
    else if SpansAt(line, longest - 4).Some? then Some(GroupsAt(line, SpansAt(line, longest - 4).value))
    else None
  }

  /**
   * The run tail occurs at index `i` of `line` with run text `run` and
   * total `total`: "Run: ", the run, "/", the total and ")", the run free of
   * "/" and the total free of ")".
   */
  ghost predicate RunTailShape(line: string, i: nat, run: string, total: string)
  {
    && i + TagLength + |run| + 1 + |total| < |line|
    && HasAt(line, i, RunTag) && HasAt(line, i + TagLength, run) && line[i + TagLength + |run|] == '/'
    && HasAt(line, i + TagLength + |run| + 1, total) && line[i + TagLength + |run| + 1 + |total|] == ')'
    && Avoids(run, {'/'}) && Avoids(total, {')'})
  }

  /**
   * `line` begins with a text the step pattern can match, with groups `g`,
   * and `gap` matched by `[\ (]*`: the prefix, a label free of "=", "=", a
   * value free of " " and "(", separators, and the run tail, one after the
   * other. `StepShapeOfText` and `StepTextOfShape` state the same as a
   * prefix of `line`.
   */
  ghost predicate StepShape(line: string, g: StepGroups, gap: string)
  {
    PiecesAt(line, g, gap, SpansOf(g, gap))
  }

  /** The pieces of a decomposition lie at the given spans of `line`. */
  ghost predicate PiecesAt(line: string, g: StepGroups, gap: string, sp: StepSpans)
  {
    && sp.eq < sp.tag <= |line|
    && HasAt(line, 0, StepPrefix) && HasAt(line, PrefixLength, g.paramLabel) && line[sp.eq] == '='
    && HasAt(line, sp.eq + 1, g.value) && HasAt(line, sp.valueEnd, gap)
    && RunTailShape(line, sp.tag, g.run, g.total)
    && Avoids(g.paramLabel, {'='}) && Avoids(g.value, Gap) && Within(gap, Gap)
  }

  /** The spans of a decomposition, computed from the lengths of its pieces. */
  function SpansOf(g: StepGroups, gap: string): StepSpans
  {
    var eq := PrefixLength + |g.paramLabel|;
    var tag := eq + 1 + |g.value| + |gap|;
    StepSpans(eq, eq + 1 + |g.value|, tag, tag + TagLength + |g.run|, tag + TagLength + |g.run| + 1 + |g.total|)
  }

  /** The text from the run tag to the closing parenthesis. */
  function RunText(run: string, total: string): string
  {
    RunTag + (run + ("/" + (total + ")")))
  }

  /** The text the step pattern consumes when its groups are `g` and its `[\ (]*` consumed `gap`. */
  function StepText(g: StepGroups, gap: string): string
  {
    StepPrefix + (g.paramLabel + ("=" + (g.value + (gap + RunText(g.run, g.total)))))
  }

  /** The run tail occurs at `i` exactly when its text does and its groups avoid their excluded characters. */
  lemma RunTailText(line: string, i: nat, run: string, total: string)
    ensures RunTailShape(line, i, run, total) <==>
      HasAt(line, i, RunText(run, total)) && Avoids(run, {'/'}) && Avoids(total, {')'})
  {
    var slash := i + TagLength + |run|;
    HasAtConcat(line, i, RunTag, run + ("/" + (total + ")")));
    HasAtConcat(line, i + TagLength, run, "/" + (total + ")"));
    HasAtConcat(line, slash, "/", total + ")");
    HasAtConcat(line, slash + 1, total, ")");
    HasAtChar(line, slash, '/');
    HasAtChar(line, slash + 1 + |total|, ')');
  }

  /** The text after "=" occurs at `i` exactly when the value, the separators and the run text follow one another from `i`. */
  lemma ValueTextAt(line: string, i: nat, g: StepGroups, gap: string)
    ensures HasAt(line, i, g.value + (gap + RunText(g.run, g.total))) <==>
      HasAt(line, i, g.value) && HasAt(line, i + |g.value|, gap) && HasAt(line, i + |g.value| + |gap|, RunText(g.run, g.total))
  {
    HasAtConcat(line, i, g.value, gap + RunText(g.run, g.total));
    HasAtConcat(line, i + |g.value|, gap, RunText(g.run, g.total));
  }

  /** The text after the prefix occurs exactly when the label, "=" and the rest follow one another. */
  lemma LabelTextAt(line: string, g: StepGroups, rest: string)
    ensures HasAt(line, PrefixLength, g.paramLabel + ("=" + rest)) <==>
      && HasAt(line, PrefixLength, g.paramLabel) && PrefixLength + |g.paramLabel| < |line|
      && line[PrefixLength + |g.paramLabel|] == '=' && HasAt(line, PrefixLength + |g.paramLabel| + 1, rest)
  {
    HasAtConcat(line, PrefixLength, g.paramLabel, "=" + rest);
    HasAtConcat(line, PrefixLength + |g.paramLabel|, "=", rest);
    HasAtChar(line, PrefixLength + |g.paramLabel|, '=');
  }

  /** A step text begins `line` exactly when the prefix does and the labelled rest follows it. */
  lemma StepTextAt(line: string, g: StepGroups, gap: string)
    ensures StepText(g, gap) <= line <==>
      HasAt(line, 0, StepPrefix) && HasAt(line, PrefixLength, g.paramLabel + ("=" + (g.value + (gap + RunText(g.run, g.total)))))
  {
    PrefixHasAt(line, StepText(g, gap));
    HasAtConcat(line, 0, StepPrefix, g.paramLabel + ("=" + (g.value + (gap + RunText(g.run, g.total)))));
  }

  /** A step text at the start of `line` whose groups avoid the characters their classes exclude is a decomposition. */
  lemma StepShapeOfText(line: string, g: StepGroups, gap: string)
    requires StepText(g, gap) <= line
    requires Avoids(g.paramLabel, {'='}) && Avoids(g.value, Gap) && Within(gap, Gap)
    requires Avoids(g.run, {'/'}) && Avoids(g.total, {')'})
    ensures StepShape(line, g, gap)
  {
    StepTextAt(line, g, gap);
    StepShapeOfPieces(line, g, gap);
  }

  /** The labelled rest of a step text after the prefix, with groups that avoid their excluded characters, is a decomposition. */
  lemma StepShapeOfPieces(line: string, g: StepGroups, gap: string)
    requires HasAt(line, 0, StepPrefix)
    requires HasAt(line, PrefixLength, g.paramLabel + ("=" + (g.value + (gap + RunText(g.run, g.total)))))
    requires Avoids(g.paramLabel, {'='}) && Avoids(g.value, Gap) && Within(gap, Gap)
    requires Avoids(g.run, {'/'}) && Avoids(g.total, {')'})
    ensures StepShape(line, g, gap)
  {
    var rest := g.value + (gap + RunText(g.run, g.total));
    LabelTextAt(line, g, rest);
    ValueTextAt(line, PrefixLength + |g.paramLabel| + 1, g, gap);
    RunTailText(line, PrefixLength + |g.paramLabel| + 1 + |g.value| + |gap|, g.run, g.total);
  }

  /** Every decomposition of `line` is a step text at its start. */
  lemma StepTextOfShape(line: string, g: StepGroups, gap: string)
    requires StepShape(line, g, gap)
    ensures StepText(g, gap) <= line
  {
    var rest := g.value + (gap + RunText(g.run, g.total));
    RunTailText(line, PrefixLength + |g.paramLabel| + 1 + |g.value| + |gap|, g.run, g.total);
    ValueTextAt(line, PrefixLength + |g.paramLabel| + 1, g, gap);
    LabelTextAt(line, g, rest);
    StepTextAt(line, g, gap);
  }

  /** What `RunTailAt` accepts is a run tail whose texts lie between the indices it returns. */
  lemma RunTailSound(line: string, i: nat)
    requires i <= |line| && RunTailAt(line, i).Some?
    ensures RunTailShape(line, i, line[i + TagLength..RunTailAt(line, i).value.0],
      line[RunTailAt(line, i).value.0 + 1..RunTailAt(line, i).value.1])
  {
    var (slash, close) := RunTailAt(line, i).value;
    SliceHasAt(line, i + TagLength, slash);
    SliceHasAt(line, slash + 1, close);
    AvoidsSlice(line, i + TagLength, slash, {'/'});
    AvoidsSlice(line, slash + 1, close, {')'});
  }

  /** `RunTailAt` finds the run and the total of every run tail at `i`. */
  lemma RunTailComplete(line: string, i: nat, run: string, total: string)
    requires RunTailShape(line, i, run, total)
    ensures RunTailAt(line, i) == Some((i + TagLength + |run|, i + TagLength + |run| + 1 + |total|))
    ensures line[i + TagLength..i + TagLength + |run|] == run
    ensures line[i + TagLength + |run| + 1..i + TagLength + |run| + 1 + |total|] == total
  {
    SkipOutsideOver(line, i + TagLength, run, {'/'});
    SkipOutsideOver(line, i + TagLength + |run| + 1, total, {')'});
    HasAtSlice(line, i + TagLength, run);
    HasAtSlice(line, i + TagLength + |run| + 1, total);
  }

  /** The spans recomputed from the groups read off spans `sp` are `sp`. */
  lemma SpansOfGroupsAt(line: string, sp: StepSpans)
    requires Ordered(line, sp)
    ensures SpansOf(GroupsAt(line, sp), GapAt(line, sp)) == sp
  {
  }

  /** Spans whose pieces avoid their excluded characters, and are followed by a run tail, give a decomposition. */
  lemma ShapeOfSpans(line: string, sp: StepSpans)
    requires Ordered(line, sp) && HasAt(line, 0, StepPrefix) && line[sp.eq] == '='
    requires Avoids(line[PrefixLength..sp.eq], {'='}) && Avoids(line[sp.eq + 1..sp.valueEnd], Gap)
    requires Within(line[sp.valueEnd..sp.tag], Gap)
    requires RunTailShape(line, sp.tag, line[sp.tag + TagLength..sp.slash], line[sp.slash + 1..sp.close])
    ensures StepShape(line, GroupsAt(line, sp), GapAt(line, sp))
  {
    SpansOfGroupsAt(line, sp);
    SliceHasAt(line, PrefixLength, sp.eq);
    SliceHasAt(line, sp.eq + 1, sp.valueEnd);
    SliceHasAt(line, sp.valueEnd, sp.tag);
    assert PiecesAt(line, GroupsAt(line, sp), GapAt(line, sp), sp);
  }

  /** What `SpansAt` returns decomposes the line, with a value of the length asked for. */
  lemma SpansAtSound(line: string, n: nat)
    requires SpansAt(line, n).Some?
    ensures var sp := SpansAt(line, n).value;
      StepShape(line, GroupsAt(line, sp), GapAt(line, sp)) && sp.valueEnd == sp.eq + 1 + n
  {
    var sp := SpansAt(line, n).value;
    AvoidsSlice(line, PrefixLength, sp.eq, {'='});
    AvoidsSlice(line, sp.eq + 1, sp.valueEnd, Gap);
    WithinSlice(line, sp.valueEnd, sp.tag, Gap);
    RunTailSound(line, sp.tag);
    ShapeOfSpans(line, sp);
  }

  /** `SpansAt` returns the spans of a decomposition once the spans it takes are known to end where its pieces end. */
  lemma SpansAtOf(line: string, g: StepGroups, gap: string)
    requires StepShape(line, g, gap)
    requires SkipOutside(line, PrefixLength, {'='}) == PrefixLength + |g.paramLabel|
    requires SkipOutside(line, PrefixLength + |g.paramLabel| + 1, Gap) >= PrefixLength + |g.paramLabel| + 1 + |g.value|
    requires SkipInside(line, SpansOf(g, gap).valueEnd, Gap) == SpansOf(g, gap).tag
    requires RunTailAt(line, SpansOf(g, gap).tag) == Some((SpansOf(g, gap).slash, SpansOf(g, gap).close))
    ensures SpansAt(line, |g.value|) == Some(SpansOf(g, gap))
  {
  }

  /** Every decomposition of a line has the spans `SpansAt` finds for its value's length. */
  lemma SpansAtComplete(line: string, g: StepGroups, gap: string)
    requires StepShape(line, g, gap)
    ensures SpansAt(line, |g.value|) == Some(SpansOf(g, gap))
  {
    var sp := SpansOf(g, gap);
    LabelEnd(line, g, gap);
    SkipOutsidePast(line, sp.eq + 1, g.value, Gap);
    GapEnd(line, g, gap);
    RunTailComplete(line, sp.tag, g.run, g.total);
    SpansAtOf(line, g, gap);
  }

  /** Every decomposition of a line has its separators end where the greedy `[\ (]*` stops. */
  lemma GapEnd(line: string, g: StepGroups, gap: string)
    requires StepShape(line, g, gap)
    ensures SkipInside(line, SpansOf(g, gap).valueEnd, Gap) == SpansOf(g, gap).tag
  {
    var sp := SpansOf(g, gap);
    assert line[sp.tag + 0] == RunTag[0];
    SkipInsideOver(line, sp.valueEnd, gap, Gap);
  }

  /** The groups and separators read off the spans of a decomposition are that decomposition. */
  lemma SpansOfGroups(line: string, g: StepGroups, gap: string)
    requires StepShape(line, g, gap)
    ensures Ordered(line, SpansOf(g, gap))
    ensures GroupsAt(line, SpansOf(g, gap)) == g && GapAt(line, SpansOf(g, gap)) == gap
  {
    var eq := PrefixLength + |g.paramLabel|;
    var tag := eq + 1 + |g.value| + |gap|;
    HasAtSlice(line, PrefixLength, g.paramLabel);
    HasAtSlice(line, eq + 1, g.value);
    HasAtSlice(line, eq + 1 + |g.value|, gap);
    HasAtSlice(line, tag + TagLength, g.run);
    HasAtSlice(line, tag + TagLength + |g.run| + 1, g.total);
  }

  /**
   * The value span `ScanStep` tries first ends where the value of a
   * decomposition ends when separators follow that value, and four
   * characters later, past "Run:", when none do.
   */
  lemma LongestValue(line: string, g: StepGroups, gap: string)
    requires StepShape(line, g, gap)
    ensures var start := PrefixLength + |g.paramLabel| + 1;
      SkipOutside(line, start, Gap) == start + |g.value| + (if |gap| > 0 then 0 else 4)
  {
    var start := PrefixLength + |g.paramLabel| + 1;
    var valueEnd := start + |g.value|;
    if |gap| > 0 {
      assert line[valueEnd + 0] == gap[0];
      SkipOutsideOver(line, start, g.value, Gap);
    } else {
      var word := g.value + "Run:";
      forall k | 0 <= k < 4 ensures line[valueEnd + k] == "Run:"[k] {
        assert line[valueEnd + k] == RunTag[k];
      }
      HasAtConcat(line, start, g.value, "Run:");
      assert line[valueEnd + 4] == RunTag[4];
      assert Avoids(word, Gap) by {
        forall k | 0 <= k < |word| ensures word[k] !in Gap {
          if k < |g.value| { assert word[k] == g.value[k]; } else { assert word[k] == "Run:"[k - |g.value|]; }
        }
      }
      SkipOutsideOver(line, start, word, Gap);
    }
  }

  /** Every decomposition of a line has its label followed by the first "=". */
  lemma LabelEnd(line: string, g: StepGroups, gap: string)
    requires StepShape(line, g, gap)
    ensures SkipOutside(line, PrefixLength, {'='}) == PrefixLength + |g.paramLabel|
  {
    SkipOutsideOver(line, PrefixLength, g.paramLabel, {'='});
  }

  /** What the scanner returns decomposes the line; the separators it skipped are returned with it. */
  lemma ScanStepSound(line: string) returns (gap: string)
    requires ScanStep(line).Some?
    ensures StepShape(line, ScanStep(line).value, gap)
  {
    ScanStepFound(line);
    var eq := SkipOutside(line, PrefixLength, {'='});
    var longest := SkipOutside(line, eq + 1, Gap) - (eq + 1);
    ScanStepOf(line, eq, longest);
    var n := if SpansAt(line, longest).Some? then longest else longest - 4;
    SpansAtSound(line, n);
    gap := GapAt(line, SpansAt(line, n).value);
  }

  /** A line the scanner accepts starts with the prefix and has an "=" after it. */
  lemma ScanStepFound(line: string)
    requires ScanStep(line).Some?
    ensures HasAt(line, 0, StepPrefix) && SkipOutside(line, PrefixLength, {'='}) < |line|
  {
  }

  /**
   * Every decomposition of a line is found by the scanner, with the same
   * label and a value at least as long; exactly that decomposition when
   * separators precede the run tag.
   */
  lemma ScanStepComplete(line: string, g: StepGroups, gap: string)
    requires StepShape(line, g, gap)
    ensures ScanStep(line).Some? && ScanStep(line).value.paramLabel == g.paramLabel
    ensures |g.value| <= |ScanStep(line).value.value|
    ensures |gap| > 0 ==> ScanStep(line) == Some(g)
  {
    var eq := PrefixLength + |g.paramLabel|;
    LabelEnd(line, g, gap);
    LongestValue(line, g, gap);
    var longest := SkipOutside(line, eq + 1, Gap) - (eq + 1);
    ScanStepOf(line, eq, longest);
    SpansAtComplete(line, g, gap);
    SpansOfGroups(line, g, gap);
    if SpansAt(line, longest).Some? {
      SpansAtShape(line, longest, g, gap);
    }
  }

  /** How `ScanStep` decides once the prefix, the "=" and the longest value are known. */
  lemma ScanStepOf(line: string, eq: nat, longest: nat)
    requires HasAt(line, 0, StepPrefix)
    requires PrefixLength <= eq < |line| && SkipOutside(line, PrefixLength, {'='}) == eq
    requires SkipOutside(line, eq + 1, Gap) == eq + 1 + longest
    ensures ScanStep(line) == Backtrack(line, longest)
  {
  }

  /** What `SpansAt` finds on a step line has the label of every decomposition of it and a value of the length asked for. */
  lemma SpansAtShape(line: string, n: nat, g: StepGroups, gap: string)
    requires StepShape(line, g, gap) && SpansAt(line, n).Some?
    ensures GroupsAt(line, SpansAt(line, n).value).paramLabel == g.paramLabel
    ensures |GroupsAt(line, SpansAt(line, n).value).value| == n
  {
    var sp := SpansAt(line, n).value;
    SpansAtSound(line, n);
    ShapeLabel(line, GroupsAt(line, sp), GapAt(line, sp), g, gap);
  }

  /** All decompositions of one line share their label. */
  lemma ShapeLabel(line: string, g1: StepGroups, gap1: string, g2: StepGroups, gap2: string)
    requires StepShape(line, g1, gap1) && StepShape(line, g2, gap2)
    ensures g1.paramLabel == g2.paramLabel
  {
    LabelEnd(line, g1, gap1);
    LabelEnd(line, g2, gap2);
    HasAtSlice(line, PrefixLength, g1.paramLabel);
    HasAtSlice(line, PrefixLength, g2.paramLabel);
  }

  /** Two decompositions of one step line whose values have the same length are the same decomposition. */
  lemma StepShapeUnique(line: string, g1: StepGroups, gap1: string, g2: StepGroups, gap2: string)
    requires StepShape(line, g1, gap1) && StepShape(line, g2, gap2)
    requires |g1.value| == |g2.value|
    ensures g1 == g2 && gap1 == gap2
  {
    SpansAtComplete(line, g1, gap1);
    SpansAtComplete(line, g2, gap2);
    SpansOfGroups(line, g1, gap1);
    SpansOfGroups(line, g2, gap2);
  }

  /**
   * The scanner agrees with `re.match`: it returns exactly the decomposition
   * of the line whose value is longest, and there is one whenever the line
   * decomposes at all.
   */
  lemma ScanStepLongest(line: string, g: StepGroups)
    ensures ScanStep(line) == Some(g) <==>
      (exists gap :: StepShape(line, g, gap)) &&
      forall g', gap' :: StepShape(line, g', gap') ==> |g'.value| <= |g.value|
  {
    if ScanStep(line) == Some(g) {
      var gap := ScanStepSound(line);
      forall g', gap' | StepShape(line, g', gap') ensures |g'.value| <= |g.value| {
        ScanStepComplete(line, g', gap');
      }
    }
    if exists gap :: StepShape(line, g, gap) {
      var gap :| StepShape(line, g, gap);
      ScanStepComplete(line, g, gap);
      var found := ScanStep(line).value;
      var gap0 := ScanStepSound(line);
      if forall g', gap' :: StepShape(line, g', gap') ==> |g'.value| <= |g.value| {
        StepShapeUnique(line, g, gap, found, gap0);
      }
    }
  }

  /** What `_parse_parameter_step` makes of a line that contains the step marker. */
  datatype StepParse =
    | Unmatched                                              // the pattern does not match; nothing is recorded
    | BadRun(paramLabel: string)                             // the run text is not an integer; the label is already recorded
    | Stepped(paramLabel: string, value: string, run: int)   // the label, the value for that run, and the run

  /** The step line parser: the pattern's groups, with the run text converted by `int`. */
  function ParseStepLine(line: string, toInt: string -> Option<int>): StepParse
  {
    match ScanStep(line)
    case None => Unmatched
    case Some(g) =>
      match toInt(g.run)
      case None => BadRun(g.paramLabel)
      case Some(r) => Stepped(g.paramLabel, g.value, r)
  }

  /** A line is left unmatched exactly when the step pattern allows no decomposition of it. */
  lemma ParseStepLineUnmatched(line: string, toInt: string -> Option<int>)
    ensures ParseStepLine(line, toInt).Unmatched? <==> !exists g, gap :: StepShape(line, g, gap)
  {
    if ScanStep(line).Some? {
      var gap := ScanStepSound(line);
      assert StepShape(line, ScanStep(line).value, gap);
    } else {
      forall g, gap | StepShape(line, g, gap) ensures false {
        ScanStepComplete(line, g, gap);
      }
    }
  }

  /**
   * A step recorded for run `r` comes from a decomposition of the line: the
   * label is free of "=" and followed by it, the value has no space or "(",
   * and the run text converts to `r`.
   */
  lemma ParseStepLineStepped(line: string, toInt: string -> Option<int>) returns (g: StepGroups, gap: string)
    requires ParseStepLine(line, toInt).Stepped?
    ensures StepShape(line, g, gap)
    ensures g.paramLabel == ParseStepLine(line, toInt).paramLabel
    ensures g.value == ParseStepLine(line, toInt).value
    ensures toInt(g.run) == Some(ParseStepLine(line, toInt).run)
  {
    g := ScanStep(line).value;
    gap := ScanStepSound(line);
  }

  /**
   * A line written as the step marker, a label, "=", a value, at least one
   * separator, the run tag, the run text, "/", the total and ")" records
   * exactly that label and value, under the run text's integer, or fails on
   * the run text while keeping the label.
   */
  lemma ParseStepLineOfShape(line: string, toInt: string -> Option<int>, g: StepGroups, gap: string)
    requires StepShape(line, g, gap) && |gap| > 0
    ensures ParseStepLine(line, toInt) ==
      match toInt(g.run)
      case None => BadRun(g.paramLabel)
      case Some(r) => Stepped(g.paramLabel, g.value, r)
  {
    ScanStepComplete(line, g, gap);
  }
}
