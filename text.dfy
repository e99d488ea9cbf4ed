/**
 * The string primitives the parser relies on, written as deterministic
 * scanners: Python's `in` substring test, `str.split('\t')`, `str.rstrip()`,
 * and the index where a greedy character class such as `[^...]*` stops.
 */
module Text {

  /** The characters for which Python's `str.isspace()` holds; `rstrip()` removes these. */
  predicate IsSpace(c: char)
  {
    || c == ' '
    || ('\t' <= c <= '\r')                    // \t \n \v \f \r
    || ('\U{1C}' <= c <= '\U{1F}')            // file, group, record and unit separators
    || c == '\U{85}' || c == '\U{A0}' || c == '\U{1680}'
    || ('\U{2000}' <= c <= '\U{200A}')
    || c == '\U{2028}' || c == '\U{2029}' || c == '\U{202F}' || c == '\U{205F}' || c == '\U{3000}'
  }

  /** `t` occurs in `s` starting at index `i`. */
  predicate OccursAt(s: string, t: string, i: int)
  {
    0 <= i && i + |t| <= |s| && s[i..i + |t|] == t
  }

  /** Python's `t in s` for strings. */
  function Contains(s: string, t: string): (b: bool)
    ensures b <==> exists i :: OccursAt(s, t, i)
    decreases |s|
  {
    if |s| < |t| then false
    else if t <= s then
      assert OccursAt(s, t, 0);
      true
    else
      var b := Contains(s[1..], t);
      if b then
        var i :| OccursAt(s[1..], t, i);
        assert OccursAt(s, t, i + 1) by { assert s[1..][i..i + |t|] == s[i + 1..i + 1 + |t|]; }
        true
      else
        assert forall i :: OccursAt(s, t, i) && i > 0 ==> OccursAt(s[1..], t, i - 1) by {
          forall i | OccursAt(s, t, i) && i > 0 ensures OccursAt(s[1..], t, i - 1) {
            assert s[1..][i - 1..i - 1 + |t|] == s[i..i + |t|];
          }
        }
        false
  }

  /** No character of `s` is in `stops`. */
  predicate Avoids(s: string, stops: set<char>)
  {
    forall i :: 0 <= i < |s| ==> s[i] !in stops
  }

  /** Every character of `s` is in `members`. */
  predicate Within(s: string, members: set<char>)
  {
    forall i :: 0 <= i < |s| ==> s[i] in members
  }

  /** `t` occurs in `s` starting at index `i`, stated character by character. */
  predicate HasAt(s: string, i: nat, t: string)
  {
    i + |t| <= |s| && forall k :: 0 <= k < |t| ==> s[i + k] == t[k]
  }

  /** A concatenation occurs at `i` exactly when its first part does and its second part follows it. */
  lemma HasAtConcat(s: string, i: nat, a: string, b: string)
    ensures HasAt(s, i, a + b) <==> HasAt(s, i, a) && HasAt(s, i + |a|, b)
  {
    if HasAt(s, i, a) && HasAt(s, i + |a|, b) {
      forall k | 0 <= k < |a + b| ensures s[i + k] == (a + b)[k] {
        if k >= |a| { assert s[i + |a| + (k - |a|)] == b[k - |a|]; }
      }
    }
    if HasAt(s, i, a + b) {
      forall k | 0 <= k < |a| ensures s[i + k] == a[k] {
        assert s[i + k] == (a + b)[k];
      }
      forall k | 0 <= k < |b| ensures s[i + |a| + k] == b[k] {
        assert s[i + (|a| + k)] == (a + b)[|a| + k];
      }
    }
  }

  /** A single character occurs at `i` when `s[i]` is that character. */
  lemma HasAtChar(s: string, i: nat, c: char)
    ensures HasAt(s, i, [c]) <==> i < |s| && s[i] == c
  {
    assert [c][0] == c;
    if i < |s| && s[i] == c {
      assert s[i + 0] == [c][0];
    }
  }

  /** A prefix is the text that occurs at index 0. */
  lemma PrefixHasAt(s: string, t: string)
    ensures t <= s <==> HasAt(s, 0, t)
  {
    if HasAt(s, 0, t) {
      assert s[..|t|] == t;
    }
  }

  /** The slice of `s` where `t` occurs is `t`. */
  lemma HasAtSlice(s: string, i: nat, t: string)
    requires HasAt(s, i, t)
    ensures s[i..i + |t|] == t
  {
  }

  /** Every slice of `s` occurs where it was cut. */
  lemma SliceHasAt(s: string, i: nat, j: nat)
    requires i <= j <= |s|
    ensures HasAt(s, i, s[i..j])
  {
  }

  /**
   * The index where a greedy `[^stops]*` that starts at index `from` of `s`
   * stops: the first index at or after `from` holding a character of
   * `stops`, or `|s|` when there is none.
   */
  function SkipOutside(s: string, from: nat, stops: set<char>): (j: nat)
    requires from <= |s|
    ensures from <= j <= |s|
    ensures forall i {:trigger s[i] in stops} :: from <= i < j ==> s[i] !in stops
    ensures j < |s| ==> s[j] in stops
    decreases |s| - from
  {
    if from == |s| || s[from] in stops then from else SkipOutside(s, from + 1, stops)
  }

  /** The index where a greedy `[members]*` that starts at index `from` of `s` stops. */
  function SkipInside(s: string, from: nat, members: set<char>): (j: nat)
    requires from <= |s|
    ensures from <= j <= |s|
    ensures forall i {:trigger s[i] in members} :: from <= i < j ==> s[i] in members
    ensures j < |s| ==> s[j] !in members
    decreases |s| - from
  {
    if from == |s| || s[from] !in members then from else SkipInside(s, from + 1, members)
  }

  /** A greedy `[^stops]*` at `from` stops right after a stop-free text found there, when a stop follows it. */
  lemma SkipOutsideOver(s: string, from: nat, a: string, stops: set<char>)
    requires HasAt(s, from, a) && Avoids(a, stops)
    requires from + |a| < |s| && s[from + |a|] in stops
    ensures SkipOutside(s, from, stops) == from + |a|
  {
    forall i | from <= i < from + |a| ensures s[i] !in stops {
      assert s[from + (i - from)] == a[i - from];
    }
  }

  /** A greedy `[^stops]*` at `from` gets at least past a stop-free text found there. */
  lemma SkipOutsidePast(s: string, from: nat, a: string, stops: set<char>)
    requires HasAt(s, from, a) && Avoids(a, stops)
    ensures SkipOutside(s, from, stops) >= from + |a|
  {
    forall i | from <= i < from + |a| ensures s[i] !in stops {
      assert s[from + (i - from)] == a[i - from];
    }
  }

  /** A greedy `[members]*` at `from` stops right after a text of members found there, when a non-member follows it. */
  lemma SkipInsideOver(s: string, from: nat, a: string, members: set<char>)
    requires HasAt(s, from, a) && Within(a, members)
    requires from + |a| < |s| && s[from + |a|] !in members
    ensures SkipInside(s, from, members) == from + |a|
  {
    forall i | from <= i < from + |a| ensures s[i] in members {
      assert s[from + (i - from)] == a[i - from];
    }
  }

  /** A slice that lies in a span of characters outside `stops` avoids them. */
  lemma AvoidsSlice(s: string, i: nat, j: nat, stops: set<char>)
    requires i <= j <= |s|
    requires forall k :: i <= k < j ==> s[k] !in stops
    ensures Avoids(s[i..j], stops)
  {
    assert forall k :: 0 <= k < j - i ==> s[i..j][k] == s[i + k];
  }

  /** A slice that lies in a span of members consists of members. */
  lemma WithinSlice(s: string, i: nat, j: nat, members: set<char>)
    requires i <= j <= |s|
    requires forall k :: i <= k < j ==> s[k] in members
    ensures Within(s[i..j], members)
  {
    assert forall k :: 0 <= k < j - i ==> s[i..j][k] == s[i + k];
  }

  /** `s` cut at every `sep`: Python's `s.split(sep)` for a one-character separator. */
  function Split(s: string, sep: char): (fs: seq<string>)
    ensures |fs| >= 1
    ensures forall i :: 0 <= i < |fs| ==> sep !in fs[i]
    ensures Join(fs, sep) == s
    decreases |s|
  {
    var n := SkipOutside(s, 0, {sep});
    if n == |s| then
      [s]
    else
      var rest := Split(s[n + 1..], sep);
      var fs := [s[..n]] + rest;
      assert forall k :: 0 <= k < n ==> s[..n][k] != sep;
      assert fs[1..] == rest;
      assert s == s[..n] + [sep] + s[n + 1..];
      fs
  }

  /** The fields written back with `sep` between them: Python's `sep.join(fs)`. */
  function Join(fs: seq<string>, sep: char): (s: string)
  {
    if |fs| == 0 then ""
    else if |fs| == 1 then fs[0]
    else fs[0] + [sep] + Join(fs[1..], sep)
  }

  /** Splitting the join of separator-free fields gives the fields back. */
  lemma {:induction false} SplitJoin(fs: seq<string>, sep: char)
    requires |fs| >= 1
    requires forall i :: 0 <= i < |fs| ==> sep !in fs[i]
    ensures Split(Join(fs, sep), sep) == fs
    decreases |fs|
  {
    var s := Join(fs, sep);
    if |fs| == 1 {
      assert forall i :: 0 <= i < |s| ==> s[i] != sep by {
        forall i | 0 <= i < |s| ensures s[i] != sep { assert s[i] in fs[0]; }
      }
    } else {
      var rest := Join(fs[1..], sep);
      assert s == fs[0] + [sep] + rest;
      assert fs[0] <= s;
      assert s[|fs[0]|] == sep;
      PrefixHasAt(s, fs[0]);
      SkipOutsideOver(s, 0, fs[0], {sep}) by {
        forall i | 0 <= i < |fs[0]| ensures fs[0][i] !in {sep} { assert fs[0][i] in fs[0]; }
      }
      assert s[|fs[0]| + 1..] == rest;
      assert s[..|fs[0]|] == fs[0];
      SplitJoin(fs[1..], sep);
    }
  }

  /** Python's `s.rstrip()`: `s` with its trailing white space removed. */
  function RStrip(s: string): (r: string)
    ensures r <= s
    ensures r == [] || !IsSpace(r[|r| - 1])
    ensures forall i :: |r| <= i < |s| ==> IsSpace(s[i])
    decreases |s|
  {
    if s != [] && IsSpace(s[|s| - 1]) then RStrip(s[..|s| - 1]) else s
  }

  /** Stripping a string whose every trailing character is white space returns its non-space prefix. */
  lemma {:induction false} RStripPadded(r: string, pad: string)
    requires r == [] || !IsSpace(r[|r| - 1])
    requires forall i :: 0 <= i < |pad| ==> IsSpace(pad[i])
    ensures RStrip(r + pad) == r
    decreases |pad|
  {
    if pad == [] {
      assert r + pad == r;
    } else {
      assert (r + pad)[..|r + pad| - 1] == r + pad[..|pad| - 1];
      RStripPadded(r, pad[..|pad| - 1]);
    }
  }
}
