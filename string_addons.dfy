/** The C++ string helpers of the legacy emulator: string_split, which cuts a
    string at any of a set of delimiter characters and drops empty pieces, and
    the substring tests string_matches and string_contains. The Go model reuses
    Segments, since strings.Fields is the same cut over white space. */
module StringAddons {

  // ---- string_split ----

  /** What string_split holds after reading s: the segments already pushed
      and the segment still being accumulated. */
  function SplitState(s: string, delimiters: seq<char>): (seq<string>, string)
    decreases |s|
  {
    if s == [] then ([], [])
    else
      var (done, segment) := SplitState(s[..|s| - 1], delimiters);
      var c := s[|s| - 1];
      if c in delimiters then
        (if segment != [] then done + [segment] else done, [])
      else
        (done, segment + [c])
  }

  /** The vector string_split returns: the pushed segments and the last one,
      if it is not empty. */
  function Segments(s: string, delimiters: seq<char>): seq<string> {
    var (done, segment) := SplitState(s, delimiters);
    if segment != [] then done + [segment] else done
  }

  function Concat(ss: seq<string>): string {
    if ss == [] then [] else Concat(ss[..|ss| - 1]) + ss[|ss| - 1]
  }

  /** s with every delimiter character removed. */
  function Remove(s: string, delimiters: seq<char>): string {
    if s == [] then []
    else Remove(s[..|s| - 1], delimiters) + (if s[|s| - 1] in delimiters then [] else [s[|s| - 1]])
  }

  predicate Clean(s: string, delimiters: seq<char>) {
    forall i :: 0 <= i < |s| ==> s[i] !in delimiters
  }

  lemma ConcatSnoc(ss: seq<string>, s: string)
    ensures Concat(ss + [s]) == Concat(ss) + s
  {
    assert (ss + [s])[..|ss|] == ss;
  }

  lemma {:induction false} SplitStateInvariant(s: string, delimiters: seq<char>)
    ensures var (done, segment) := SplitState(s, delimiters);
      && (forall k :: 0 <= k < |done| ==> done[k] != [] && Clean(done[k], delimiters))
      && Clean(segment, delimiters)
      && Concat(done) + segment == Remove(s, delimiters)
  {
    if s != [] {
      var init := s[..|s| - 1];
      SplitStateInvariant(init, delimiters);
      var (done, segment) := SplitState(init, delimiters);
      if s[|s| - 1] in delimiters && segment != [] {
        ConcatSnoc(done, segment);
      }
    }
  }

  /** Every segment is non-empty and free of delimiters, and the segments
      concatenated in order give the input without its delimiters; empty
      input gives no segment. */
  lemma SegmentsAreCleanAndComplete(s: string, delimiters: seq<char>)
    ensures var segments := Segments(s, delimiters);
      && (forall k :: 0 <= k < |segments| ==> segments[k] != [] && Clean(segments[k], delimiters))
      && Concat(segments) == Remove(s, delimiters)
    ensures s == [] ==> Segments(s, delimiters) == []
  {
    SplitStateInvariant(s, delimiters);
    var st := SplitState(s, delimiters);
    if st.1 != [] {
      ConcatSnoc(st.0, st.1);
      var segments := st.0 + [st.1];
      assert segments == Segments(s, delimiters);
      forall k | 0 <= k < |segments| ensures segments[k] != [] && Clean(segments[k], delimiters) {
        if k < |st.0| {
          assert segments[k] == st.0[k];
        }
      }
    }
  }

  lemma {:induction false} SplitStateOfUndelimited(s: string, delimiters: seq<char>)
    requires Clean(s, delimiters)
    ensures SplitState(s, delimiters) == ([], s)
  {
    if s != [] {
      SplitStateOfUndelimited(s[..|s| - 1], delimiters);
      assert s[..|s| - 1] + [s[|s| - 1]] == s;
    }
  }

  /** A non-empty input with no delimiter in it is a single segment. */
  lemma SegmentsOfUndelimited(s: string, delimiters: seq<char>)
    requires s != [] && Clean(s, delimiters)
    ensures Segments(s, delimiters) == [s]
  {
    SplitStateOfUndelimited(s, delimiters);
  }

  /** The segments joined with one separator character between each pair. */
  function Join(segments: seq<string>, separator: char): string {
    if |segments| == 0 then []
    else if |segments| == 1 then segments[0]
    else Join(segments[..|segments| - 1], separator) + [separator] + segments[|segments| - 1]
  }

  lemma {:induction false} SplitStateAppendClean(s: string, w: string, delimiters: seq<char>)
    requires Clean(w, delimiters)
    ensures SplitState(s + w, delimiters) == (SplitState(s, delimiters).0, SplitState(s, delimiters).1 + w)
    decreases |w|
  {
    if w == [] {
      assert s + w == s;
      assert SplitState(s, delimiters).1 + w == SplitState(s, delimiters).1;
    } else {
      var init := w[..|w| - 1];
      assert (s + w)[..|s + w| - 1] == s + init;
      SplitStateAppendClean(s, init, delimiters);
      var c := w[|w| - 1];
      assert c !in delimiters;
      assert (s + w)[|s + w| - 1] == c;
      assert SplitState(s, delimiters).1 + init + [c] == SplitState(s, delimiters).1 + w;
    }
  }

  /** Splitting undoes joining: non-empty, delimiter-free segments joined by
      a delimiter split back into exactly those segments. */
  lemma SegmentsOfJoin(segments: seq<string>, separator: char, delimiters: seq<char>)
    requires separator in delimiters
    requires forall k :: 0 <= k < |segments| ==> segments[k] != [] && Clean(segments[k], delimiters)
    ensures Segments(Join(segments, separator), delimiters) == segments
  {
    if segments != [] {
      var n := |segments|;
      var joined, init, last := Join(segments, separator), segments[..n - 1], segments[n - 1];
      SplitStateOfJoin(segments, separator, delimiters);
      assert last != [];
      SegmentsOfCompleteState(joined, delimiters, init, last);
      assert init + [last] == segments;
    }
  }

  /** After reading joined segments, all but the last have been pushed and
      the last is the one still being accumulated. */
  lemma {:induction false} SplitStateOfJoin(segments: seq<string>, separator: char, delimiters: seq<char>)
    requires segments != [] && separator in delimiters
    requires forall k :: 0 <= k < |segments| ==> segments[k] != [] && Clean(segments[k], delimiters)
    ensures SplitState(Join(segments, separator), delimiters) == (segments[..|segments| - 1], segments[|segments| - 1])
    decreases |segments|
  {
    var n := |segments|;
    if n == 1 {
      SplitStateAppendClean([], segments[0], delimiters);
      assert [] + segments[0] == segments[0];
    } else {
      var init := segments[..n - 1];
      var joined := Join(init, separator);
      SplitStateOfJoin(init, separator, delimiters);
      assert init[n - 2] != [];
      SegmentsOfCompleteState(joined, delimiters, init[..n - 2], init[n - 2]);
      assert init[..n - 2] + [init[n - 2]] == init;
      SplitStateAfterDelimiter(joined, separator, delimiters);
      SplitStateAppendClean(joined + [separator], segments[n - 1], delimiters);
      assert [] + segments[n - 1] == segments[n - 1];
      assert Join(segments, separator) == joined + [separator] + segments[n - 1];
    }
  }

  lemma SegmentsOfCompleteState(s: string, delimiters: seq<char>, done: seq<string>, segment: string)
    requires SplitState(s, delimiters) == (done, segment) && segment != []
    ensures Segments(s, delimiters) == done + [segment]
  {
  }

  lemma SplitStateAfterDelimiter(s: string, separator: char, delimiters: seq<char>)
    requires separator in delimiters
    ensures SplitState(s + [separator], delimiters) == (Segments(s, delimiters), [])
  {
    assert (s + [separator])[..|s|] == s;
  }

  lemma {:induction false} SplitStateNotEmpty(s: string, delimiters: seq<char>)
    requires s != [] && s[0] !in delimiters
    ensures SplitState(s, delimiters).0 != [] || SplitState(s, delimiters).1 != []
    decreases |s|
  {
    if |s| > 1 {
      SplitStateNotEmpty(s[..|s| - 1], delimiters);
    }
  }

  /** An input that does not start with a delimiter has a first segment. */
  lemma SegmentsNotEmpty(s: string, delimiters: seq<char>)
    requires s != [] && s[0] !in delimiters
    ensures Segments(s, delimiters) != []
  {
    SplitStateNotEmpty(s, delimiters);
  }

  /** string_split: reads the input once, pushing each non-empty segment when
      a delimiter ends it. */
  method StringSplit(input: string, delimiters: seq<char>) returns (result: seq<string>)
    ensures result == Segments(input, delimiters)
  {
    result := [];
    var segment := "";
    for i := 0 to |input|
      invariant (result, segment) == SplitState(input[..i], delimiters)
    {
      assert input[..i + 1][..i] == input[..i];
      var c := input[i];
      if c in delimiters {
        if |segment| != 0 {
          result := result + [segment];
          segment := "";
        }
      } else {
        segment := segment + [c];
      }
    }
    assert input[..|input|] == input;
    if |segment| != 0 {
      result := result + [segment];
    }
  }

  // ---- string_matches and string_contains ----

  /** target sits in input at index i. */
  predicate MatchesAt(input: string, i: nat, target: string)
    requires i + |target| <= |input|
  {
    input[i..i + |target|] == target
  }

  /** string_matches: compares target with input from inputIndex on, and
      answers whether every character agrees. The caller keeps the compared
      range inside the input. */
  method StringMatches(input: string, inputIndex: nat, target: string) returns (r: bool)
    requires inputIndex + |target| <= |input|
    ensures r <==> forall x :: 0 <= x < |target| ==> input[inputIndex + x] == target[x]
    ensures r <==> MatchesAt(input, inputIndex, target)
  {
    for x := 0 to |target|
      invariant forall y :: 0 <= y < x ==> input[inputIndex + y] == target[y]
    {
      if input[x + inputIndex] != target[x] {
        return false;
      }
    }
    return true;
  }

  /** string_contains: tries every start index of the input in order; gives
      up as soon as the target no longer fits. It never looks at an empty
      input, so even the empty target is not found there. */
  method StringContains(input: string, target: string) returns (r: bool)
    ensures r <==> exists i :: 0 <= i < |input| && i + |target| <= |input| && MatchesAt(input, i, target)
    ensures |input| == 0 ==> !r
  {
    for i := 0 to |input|
      invariant forall j :: 0 <= j < i && j + |target| <= |input| ==> !MatchesAt(input, j, target)
    {
      if |target| + i > |input| {
        return false;
      }
      var m := StringMatches(input, i, target);
      if m {
        return true;
      }
    }
    return false;
  }

  /** A one-character target is found exactly when the input holds that
      character. */
  lemma ContainsOneChar(input: string, ch: char)
    ensures (exists i :: 0 <= i < |input| && i + 1 <= |input| && MatchesAt(input, i, [ch])) <==> ch in input
  {
    if ch in input {
      var i :| 0 <= i < |input| && input[i] == ch;
      assert MatchesAt(input, i, [ch]);
    }
    if exists i :: 0 <= i < |input| && i + 1 <= |input| && MatchesAt(input, i, [ch]) {
      var i :| 0 <= i < |input| && i + 1 <= |input| && MatchesAt(input, i, [ch]);
      assert input[i..i + 1][0] == input[i];
    }
  }
}
