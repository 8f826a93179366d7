/** The Go standard-library text functions both Go assemblers lean on, stated
    over strings of Unicode code points: unicode.IsSpace, strings.TrimSpace,
    strings.Fields (the maximal runs of non-space characters),
    strings.HasPrefix, the first piece of strings.Split(s, " "),
    strconv.ParseUint(s, 10, 8), and the line cutting bufio.ScanLines
    performs for ForEachLine. */
module GoText {
  import opened Wrappers
  import opened Isa
  import StringAddons

  /** unicode.IsSpace: the Latin-1 spaces '\t', '\n', '\v', '\f', '\r', ' ',
      U+0085 and U+00A0, and the other characters with the White_Space
      property. */
  predicate IsSpace(c: char) {
    || c == ' ' || ('\t' <= c <= '\r') || c == '\U{0085}' || c == '\U{00A0}' || c == '\U{1680}'
    || ('\U{2000}' <= c <= '\U{200A}') || c == '\U{2028}' || c == '\U{2029}' || c == '\U{202F}'
    || c == '\U{205F}' || c == '\U{3000}'
  }

  /** s holds no white space. */
  predicate NoSpace(s: string) {
    forall i :: 0 <= i < |s| ==> !IsSpace(s[i])
  }

  function TrimLeft(s: string): (r: string)
    ensures r == [] || !IsSpace(r[0])
  {
    if s != [] && IsSpace(s[0]) then TrimLeft(s[1..]) else s
  }

  function TrimRight(s: string): (r: string)
    ensures r == [] || !IsSpace(r[|r| - 1])
    ensures |r| <= |s| && (r != [] ==> r[0] == s[0])
  {
    if s != [] && IsSpace(s[|s| - 1]) then TrimRight(s[..|s| - 1]) else s
  }

  /** strings.TrimSpace: s without its leading and trailing white space. */
  function TrimSpace(s: string): (r: string)
    ensures r == [] || (!IsSpace(r[0]) && !IsSpace(r[|r| - 1]))
  {
    TrimRight(TrimLeft(s))
  }

  lemma {:induction false} TrimLeftDropsSpaces(s: string)
    ensures exists i :: 0 <= i <= |s| && TrimLeft(s) == s[i..] && forall k :: 0 <= k < i ==> IsSpace(s[k])
  {
    if s != [] && IsSpace(s[0]) {
      TrimLeftDropsSpaces(s[1..]);
      var i :| 0 <= i <= |s[1..]| && TrimLeft(s[1..]) == s[1..][i..] && forall k :: 0 <= k < i ==> IsSpace(s[1..][k]);
      assert TrimLeft(s) == s[i + 1..];
      assert forall k :: 0 <= k < i + 1 ==> IsSpace(s[k]) by {
        forall k | 0 <= k < i + 1 ensures IsSpace(s[k]) {
          if k > 0 {
            assert s[k] == s[1..][k - 1];
          }
        }
      }
      assert 0 <= i + 1 <= |s| && TrimLeft(s) == s[i + 1..] && forall k :: 0 <= k < i + 1 ==> IsSpace(s[k]);
    } else {
      assert TrimLeft(s) == s[0..];
    }
  }

  lemma {:induction false} TrimRightDropsSpaces(s: string)
    ensures exists j :: 0 <= j <= |s| && TrimRight(s) == s[..j] && forall k :: j <= k < |s| ==> IsSpace(s[k])
  {
    if s != [] && IsSpace(s[|s| - 1]) {
      var init := s[..|s| - 1];
      TrimRightDropsSpaces(init);
      var j :| 0 <= j <= |init| && TrimRight(init) == init[..j] && forall k :: j <= k < |init| ==> IsSpace(init[k]);
      assert TrimRight(s) == s[..j];
      assert forall k :: j <= k < |s| ==> IsSpace(s[k]) by {
        forall k | j <= k < |s| ensures IsSpace(s[k]) {
          if k < |init| {
            assert s[k] == init[k];
          }
        }
      }
    } else {
      assert TrimRight(s) == s[..|s|];
    }
  }

  /** TrimSpace keeps a contiguous part of s and drops only white space
      around it. */
  lemma TrimSpaceIsSlice(s: string)
    ensures exists i, j ::
      && 0 <= i <= j <= |s|
      && TrimSpace(s) == s[i..j]
      && (forall k :: 0 <= k < i ==> IsSpace(s[k]))
      && (forall k :: j <= k < |s| ==> IsSpace(s[k]))
  {
    TrimLeftDropsSpaces(s);
    var i :| 0 <= i <= |s| && TrimLeft(s) == s[i..] && forall k :: 0 <= k < i ==> IsSpace(s[k]);
    var t := s[i..];
    TrimRightDropsSpaces(t);
    var j :| 0 <= j <= |t| && TrimRight(t) == t[..j] && forall k :: j <= k < |t| ==> IsSpace(t[k]);
    TrailingSpacesOfSuffix(s, i, j);
    assert TrimSpace(s) == s[i..i + j];
  }

  /** Spaces at the end of the suffix s[i..] are spaces at the end of s. */
  lemma TrailingSpacesOfSuffix(s: string, i: nat, j: nat)
    requires i <= |s| && j <= |s| - i
    requires forall k :: j <= k < |s[i..]| ==> IsSpace(s[i..][k])
    ensures s[i..][..j] == s[i..i + j]
    ensures forall k :: i + j <= k < |s| ==> IsSpace(s[k])
  {
    forall k | i + j <= k < |s| ensures IsSpace(s[k]) {
      assert s[k] == s[i..][k - i];
    }
  }

  // ---- strings.Fields ----

  /** The fields already complete after reading s, and the field still
      being read. */
  function FieldsState(s: string): (seq<string>, string)
    decreases |s|
  {
    if s == [] then ([], [])
    else
      var (done, field) := FieldsState(s[..|s| - 1]);
      var c := s[|s| - 1];
      if IsSpace(c) then
        (if field != [] then done + [field] else done, [])
      else
        (done, field + [c])
  }

  /** strings.Fields: the maximal runs of non-space characters. */
  function Fields(s: string): seq<string> {
    var (done, field) := FieldsState(s);
    if field != [] then done + [field] else done
  }

  lemma {:induction false} FieldsStateInvariant(s: string)
    ensures var (done, field) := FieldsState(s);
      (forall k :: 0 <= k < |done| ==> done[k] != [] && NoSpace(done[k])) && NoSpace(field)
    decreases |s|
  {
    if s != [] {
      FieldsStateInvariant(s[..|s| - 1]);
    }
  }

  /** Every field is non-empty and holds no white space. */
  lemma FieldsAreWords(s: string)
    ensures var fields := Fields(s);
      forall k :: 0 <= k < |fields| ==> fields[k] != [] && NoSpace(fields[k])
  {
    FieldsStateInvariant(s);
    var st := FieldsState(s);
    if st.1 != [] {
      var fields := st.0 + [st.1];
      forall k | 0 <= k < |fields| ensures fields[k] != [] && NoSpace(fields[k]) {
        if k < |st.0| {
          assert fields[k] == st.0[k];
        }
      }
    }
  }

  lemma {:induction false} FieldsStateAppendWord(s: string, w: string)
    requires NoSpace(w)
    ensures FieldsState(s + w) == (FieldsState(s).0, FieldsState(s).1 + w)
    decreases |w|
  {
    if w == [] {
      assert s + w == s;
      assert FieldsState(s).1 + w == FieldsState(s).1;
    } else {
      var init := w[..|w| - 1];
      assert (s + w)[..|s + w| - 1] == s + init;
      FieldsStateAppendWord(s, init);
      var c := w[|w| - 1];
      assert (s + w)[|s + w| - 1] == c;
      assert FieldsState(s).1 + init + [c] == FieldsState(s).1 + w;
    }
  }

  /** Fields undoes joining with a space: non-empty words without white
      space, joined by ' ', split back into exactly those words. */
  lemma FieldsOfJoin(words: seq<string>)
    requires forall k :: 0 <= k < |words| ==> words[k] != [] && NoSpace(words[k])
    ensures Fields(StringAddons.Join(words, ' ')) == words
  {
    if words != [] {
      var n := |words|;
      var joined, init, last := StringAddons.Join(words, ' '), words[..n - 1], words[n - 1];
      FieldsStateOfJoin(words);
      assert last != [];
      FieldsOfCompleteState(joined, init, last);
      InitThenLast(words);
    }
  }

  lemma InitThenLast<T>(xs: seq<T>)
    requires xs != []
    ensures xs[..|xs| - 1] + [xs[|xs| - 1]] == xs
  {
  }

  lemma FieldsOfCompleteState(s: string, done: seq<string>, field: string)
    requires FieldsState(s) == (done, field) && field != []
    ensures Fields(s) == done + [field]
  {
    FieldsOfState(s);
  }

  /** After reading joined words, all but the last are complete fields and
      the last is the field still being read. */
  lemma {:induction false} FieldsStateOfJoin(words: seq<string>)
    requires words != []
    requires forall k :: 0 <= k < |words| ==> words[k] != [] && NoSpace(words[k])
    ensures FieldsState(StringAddons.Join(words, ' ')) == (words[..|words| - 1], words[|words| - 1])
    decreases |words|
  {
    var n := |words|;
    if n == 1 {
      FieldsStateAppendWord([], words[0]);
      assert [] + words[0] == words[0];
    } else {
      var init := words[..n - 1];
      var joined := StringAddons.Join(init, ' ');
      FieldsStateOfJoin(init);
      assert init[n - 2] != [];
      FieldsOfState(joined);
      assert init[..n - 2] + [init[n - 2]] == init;
      assert Fields(joined) == init;
      FieldsStateAfterSpace(joined);
      FieldsStateAppendWord(joined + [' '], words[n - 1]);
      assert [] + words[n - 1] == words[n - 1];
      assert StringAddons.Join(words, ' ') == joined + [' '] + words[n - 1];
    }
  }

  lemma FieldsOfState(s: string)
    ensures Fields(s) == if FieldsState(s).1 != [] then FieldsState(s).0 + [FieldsState(s).1] else FieldsState(s).0
  {
  }

  /** A space completes the field being read, if any. */
  lemma FieldsStateAfterSpace(s: string)
    ensures FieldsState(s + [' ']) == (Fields(s), [])
  {
    assert (s + [' '])[..|s|] == s;
  }

  /** A single word without white space is its own only field. */
  lemma FieldsOfWord(w: string)
    requires w != [] && NoSpace(w)
    ensures Fields(w) == [w]
  {
    FieldsStateAppendWord([], w);
    assert [] + w == w;
  }

  lemma {:induction false} FieldsStateNotEmpty(s: string)
    requires s != [] && !IsSpace(s[0])
    ensures FieldsState(s).0 != [] || FieldsState(s).1 != []
    decreases |s|
  {
    if |s| > 1 {
      FieldsStateNotEmpty(s[..|s| - 1]);
    }
  }

  /** Text that does not start with white space has a first field. */
  lemma FieldsNotEmpty(s: string)
    requires s != [] && !IsSpace(s[0])
    ensures Fields(s) != []
  {
    FieldsStateNotEmpty(s);
  }

  predicate HasPrefix(s: string, prefix: string) {
    |prefix| <= |s| && s[..|prefix|] == prefix
  }

  predicate EndsWithColon(token: string) {
    |token| > 0 && token[|token| - 1] == ':'
  }

  /** strings.Split(s, " ")[0]: everything before the first plain space. */
  function FirstSpaceToken(s: string): (r: string)
    ensures HasPrefix(s, r) && ' ' !in r
    ensures |r| < |s| ==> s[|r|] == ' '
  {
    if s == [] || s[0] == ' ' then []
    else [s[0]] + FirstSpaceToken(s[1..])
  }

  // ---- strconv.ParseUint(s, 10, 8) ----

  predicate IsDigit(c: char) {
    '0' <= c <= '9'
  }

  predicate AllDigits(s: string) {
    forall i :: 0 <= i < |s| ==> IsDigit(s[i])
  }

  /** The value of a string of decimal digits, most significant first. */
  function DecimalValue(s: string): nat
    requires AllDigits(s)
  {
    if s == [] then 0
    else DecimalValue(s[..|s| - 1]) * 10 + (s[|s| - 1] as int - '0' as int)
  }

  /** The decimal digits of n, most significant first, without leading
      zeros: the text DecimalValue reads back as n. */
  function Decimal(n: nat): (s: string)
    ensures s != [] && AllDigits(s) && DecimalValue(s) == n
    ensures s[0] != '0' || n == 0
    decreases n
  {
    var digit := ('0' as int + n % 10) as char;
    if n < 10 then [digit]
    else
      var init := Decimal(n / 10);
      assert (init + [digit])[..|init|] == init;
      init + [digit]
  }

  /** strconv.ParseUint(s, 10, 8): fails on the empty string, on any character
      that is not a decimal digit (no sign, no underscore, no prefix) and on a
      value that does not fit 8 bits; the caller only sees whether it failed. */
  function ParseUint8(s: string): Option<Byte> {
    if s != [] && AllDigits(s) && DecimalValue(s) <= 255 then Some(DecimalValue(s)) else None
  }

  /** Every byte value's decimal text parses back to it. */
  lemma ParseUint8OfDecimal(n: Byte)
    ensures ParseUint8(Decimal(n)) == Some(n)
  {
  }

  // ---- bufio.ScanLines ----

  function IndexOf(s: string, c: char): (i: nat)
    requires c in s
    ensures i < |s| && s[i] == c && c !in s[..i]
  {
    if s[0] == c then 0 else 1 + IndexOf(s[1..], c)
  }

  /** A line loses one trailing carriage return. */
  function DropCR(s: string): (r: string)
    ensures r <= s
  {
    if s != [] && s[|s| - 1] == '\r' then s[..|s| - 1] else s
  }

  /** The lines ForEachLine hands to its callback, in order: the text is cut
      after every newline, each piece loses a trailing carriage return, and a
      final piece is a line only when it is not empty. */
  function SplitLines(text: string): (lines: seq<string>)
    ensures forall k :: 0 <= k < |lines| ==> '\n' !in lines[k]
    ensures lines == [] <==> text == []
    decreases |text|
  {
    if text == [] then []
    else if '\n' in text then
      var i := IndexOf(text, '\n');
      [DropCR(text[..i])] + SplitLines(text[i + 1..])
    else
      [DropCR(text)]
  }

  /** Every mnemonic of the instruction table is a single field: non-empty,
      free of white space, and not ending in ':'. */
  lemma MnemonicIsField(m: string)
    requires m in Instructions
    ensures m != [] && NoSpace(m) && !EndsWithColon(m)
    ensures m != "NOP" && m != "MOV" && m != "JMP" && m != "EXIT"
  {
    MnemonicIsUpperCase(m);
    PseudoMnemonicsAreNotInTable();
  }

  lemma MnemonicIsUpperCase(m: string)
    requires m in Instructions
    ensures m != [] && forall i :: 0 <= i < |m| ==> 'A' <= m[i] <= 'Z'
  {
    MnemonicsAreListed(m);
  }

  lemma PseudoMnemonicsAreNotInTable()
    ensures "NOP" !in Instructions && "MOV" !in Instructions
    ensures "JMP" !in Instructions && "EXIT" !in Instructions
  {
  }

  /** Decimal text is a single field that does not end in ':'. */
  lemma DecimalIsField(n: nat)
    ensures Decimal(n) != [] && NoSpace(Decimal(n)) && !EndsWithColon(Decimal(n))
  {
  }
}
