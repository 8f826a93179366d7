/** The helpers of the desktop program (src/utils.go): NumberToString, which
    formats an integer in a base and pads it on the left, the membership
    test Contains, Ternary and Try. */
module Utils {
  import opened Wrappers

  // ---- strconv.FormatUint and strconv.FormatInt ----

  /** The digit strconv writes for d: '0'..'9', then 'a'..'z'. */
  function DigitChar(d: nat): (c: char)
    requires d < 36
  {
    if d < 10 then ('0' as int + d) as char else ('a' as int + d - 10) as char
  }

  /** The value of a digit character, or -1 for any other character. */
  function DigitOf(c: char): int {
    if '0' <= c <= '9' then c as int - '0' as int
    else if 'a' <= c <= 'z' then c as int - 'a' as int + 10
    else -1
  }

  /** Every character of s is a digit of the base. */
  predicate IsNumeral(s: string, base: nat) {
    forall i :: 0 <= i < |s| ==> 0 <= DigitOf(s[i]) < base
  }

  /** The number a numeral of the base stands for, most significant digit
      first. */
  function NumeralValue(s: string, base: nat): nat
    requires IsNumeral(s, base)
  {
    if s == [] then 0 else NumeralValue(s[..|s| - 1], base) * base + DigitOf(s[|s| - 1])
  }

  /** strconv.FormatUint(n, base): the digits of n in the base, most
      significant first. */
  function FormatUint(n: nat, base: nat): (s: string)
    requires 2 <= base <= 36
    ensures s != []
    decreases n
  {
    var last := DigitChar(n % base);
    if n < base then [last]
    else
      DivisionShrinks(n, base);
      FormatUint(n / base, base) + [last]
  }

  lemma DivisionShrinks(n: nat, base: nat)
    requires 2 <= base <= n
    ensures 0 < n / base < n
  {
    var q := n / base;
    DivisionSplits(n, base);
    MultiplyMonotone(2, base, q);
    assert q != 0;
  }

  lemma DigitCharRoundTrip(d: nat)
    requires d < 36
    ensures DigitOf(DigitChar(d)) == d
  {
  }

  lemma DivisionSplits(n: nat, base: nat)
    requires base > 0
    ensures (n / base) * base + n % base == n
  {
  }

  lemma {:induction false} MultiplyMonotone(a: nat, b: nat, c: nat)
    requires a <= b
    ensures a * c <= b * c
  {
    if c > 0 {
      MultiplyMonotone(a, b, c - 1);
      assert a * c == a * (c - 1) + a;
      assert b * c == b * (c - 1) + b;
    }
  }

  /** Dividing a value below base * p by base gives less than p. */
  lemma DivisionBelow(n: nat, base: nat, p: nat)
    requires base > 0 && n < base * p
    ensures n / base < p
  {
    var q := n / base;
    DivisionSplits(n, base);
    if q >= p {
      MultiplyMonotone(p, q, base);
      assert false;
    }
  }

  lemma NumeralSnoc(init: string, c: char, base: nat)
    requires IsNumeral(init, base) && 0 <= DigitOf(c) < base
    ensures IsNumeral(init + [c], base)
    ensures NumeralValue(init + [c], base) == NumeralValue(init, base) * base + DigitOf(c)
  {
    var s := init + [c];
    forall i | 0 <= i < |s| ensures 0 <= DigitOf(s[i]) < base {
      if i < |init| {
        assert s[i] == init[i];
      }
    }
    assert s[..|init|] == init;
  }

  /** The digits FormatUint writes read back as n, and only zero is written
      with a leading '0'. */
  lemma {:induction false} FormatUintRoundTrip(n: nat, base: nat)
    requires 2 <= base <= 36
    ensures IsNumeral(FormatUint(n, base), base)
    ensures NumeralValue(FormatUint(n, base), base) == n
    ensures FormatUint(n, base)[0] != '0' || n == 0
    decreases n
  {
    FormatUintLeadingDigit(n, base);
    if n < base {
      SmallDigit(n, base);
      DigitCharRoundTrip(n);
      NumeralOfOneDigit(DigitChar(n), base);
    } else {
      DivisionShrinks(n, base);
      FormatUintRoundTrip(n / base, base);
      FormatUintSnoc(n, base);
      ValueOfLastDigit(FormatUint(n / base, base), n, base);
    }
  }

  lemma NumeralOfOneDigit(c: char, base: nat)
    requires 0 <= DigitOf(c) < base
    ensures IsNumeral([c], base) && NumeralValue([c], base) == DigitOf(c)
  {
    assert [c][..0] == [];
    assert NumeralValue([c], base) == NumeralValue([], base) * base + DigitOf(c);
  }

  lemma FormatUintSnoc(n: nat, base: nat)
    requires 2 <= base <= 36 && base <= n
    ensures FormatUint(n, base) == FormatUint(n / base, base) + [DigitChar(n % base)]
  {
  }

  lemma {:induction false} FormatUintLeadingDigit(n: nat, base: nat)
    requires 2 <= base <= 36
    ensures FormatUint(n, base)[0] != '0' || n == 0
    decreases n
  {
    if n < base {
      SmallDigit(n, base);
    } else {
      DivisionShrinks(n, base);
      FormatUintLeadingDigit(n / base, base);
      FormatUintHead(n, base);
    }
  }

  lemma SmallDigit(n: nat, base: nat)
    requires 2 <= base <= 36 && n < base
    ensures FormatUint(n, base) == [DigitChar(n)]
    ensures DigitChar(n) == '0' <==> n == 0
  {
    assert n % base == n;
  }

  lemma FormatUintHead(n: nat, base: nat)
    requires 2 <= base <= 36 && base <= n
    ensures FormatUint(n, base)[0] == FormatUint(n / base, base)[0]
  {
  }

  /** The digits of n / base followed by the digit of n % base read as n. */
  lemma ValueOfLastDigit(init: string, n: nat, base: nat)
    requires 2 <= base <= 36 && IsNumeral(init, base) && NumeralValue(init, base) == n / base
    ensures 0 <= DigitOf(DigitChar(n % base)) < base
    ensures IsNumeral(init + [DigitChar(n % base)], base)
    ensures NumeralValue(init + [DigitChar(n % base)], base) == n
  {
    DigitCharRoundTrip(n % base);
    NumeralSnoc(init, DigitChar(n % base), base);
    DivisionSplits(n, base);
  }

  /** strconv.FormatInt(x, base): a '-' in front of the digits of a negative
      value. */
  function FormatInt(x: int, base: nat): string
    requires 2 <= base <= 36
  {
    if x < 0 then "-" + FormatUint(-x, base) else FormatUint(x, base)
  }

  /** The argument of NumberToString after reflection: a value of one of the
      signed or unsigned integer kinds, or anything else. */
  datatype Number = Signed(i: int) | Unsigned(n: nat) | NotAnInteger

  /** The digit string of an integer argument. */
  function Formatted(number: Number, base: nat): string
    requires !number.NotAnInteger? && 2 <= base <= 36
  {
    match number
    case Signed(i) => FormatInt(i, base)
    case Unsigned(n) => FormatUint(n, base)
  }

  // ---- NumberToString ----

  /** k copies of p. */
  function Repeat(p: string, k: nat): (r: string)
    ensures |r| == k * |p|
  {
    if k == 0 then [] else p + Repeat(p, k - 1)
  }

  /** How many copies of a padding of length padLength bring a string of
      length length to at least width: none when it is already wide enough
      or when the padding is empty, otherwise the quotient rounded up. */
  function PadCount(length: nat, width: nat, padLength: nat): nat {
    if width <= length || padLength == 0 then 0 else (width - length + padLength - 1) / padLength
  }

  /** The padded string is at least width long, and one copy fewer would be
      too short. */
  lemma PadCountIsLeast(length: nat, width: nat, padLength: nat)
    requires padLength > 0 || width <= length
    ensures var k := PadCount(length, width, padLength);
      && length + k * padLength >= width
      && (k == 0 || length + (k - 1) * padLength < width)
  {
    if width > length {
      var q := (width - length + padLength - 1) / padLength;
      var r := (width - length + padLength - 1) % padLength;
      assert q * padLength + r == width - length + padLength - 1;
      assert q * padLength >= width - length;
      assert (q - 1) * padLength == q * padLength - padLength;
    }
  }

  /** NumberToString: "invalid type" for a non-integer argument; otherwise
      the digits, with paddingChar prepended until the string is at least
      width long. A longer digit string is kept whole. FormatInt and
      FormatUint panic on a base outside 2..36. An empty paddingChar keeps
      the digits as they are (see PadLeft). */
  method NumberToString(number: Number, width: nat, paddingChar: string, base: nat) returns (s: string)
    requires width < 0x1_0000
    requires !number.NotAnInteger? ==> 2 <= base <= 36
    ensures number.NotAnInteger? ==> s == "invalid type"
    ensures !number.NotAnInteger? ==>
      var digits := Formatted(number, base);
      s == Repeat(paddingChar, PadCount(|digits|, width, |paddingChar|)) + digits
  {
    match number {
      case Signed(i) =>
        s := FormatInt(i, base);
      case Unsigned(n) =>
        s := FormatUint(n, base);
      case NotAnInteger =>
        return "invalid type";
    }
    s := PadLeft(s, width, paddingChar);
  }

  /** The padding loop of NumberToString: prepends paddingChar while the
      string is shorter than width. An empty paddingChar would never make
      the string longer, so it leaves the digits as they are. */
  method PadLeft(digits: string, width: nat, paddingChar: string) returns (s: string)
    ensures s == Repeat(paddingChar, PadCount(|digits|, width, |paddingChar|)) + digits
    ensures |s| >= width <==> paddingChar != [] || width <= |digits|
  {
    s := digits;
    if paddingChar == [] {
      return;
    }
    ghost var k := 0;
    PadCountIsLeast(|digits|, width, |paddingChar|);
    while |s| < width
      invariant s == Repeat(paddingChar, k) + digits
      invariant k <= PadCount(|digits|, width, |paddingChar|)
      decreases width - |s|
    {
      assert k < PadCount(|digits|, width, |paddingChar|);
      s := paddingChar + s;
      k := k + 1;
    }
    ghost var count := PadCount(|digits|, width, |paddingChar|);
    if k < count {
      MultiplyMonotone(k, count - 1, |paddingChar|);
    }
  }

  /** k rounds of the padding loop as written: each round is
      s = paddingChar + s, with no check on paddingChar. */
  function PadRounds(s: string, paddingChar: string, k: nat): string {
    if k == 0 then s else paddingChar + PadRounds(s, paddingChar, k - 1)
  }

  /** The padding loop as written, on an empty paddingChar and digits
      shorter than width: after any number k of rounds the string is still
      the digits, so the loop condition still holds and the loop never ends. */
  lemma {:induction false} EmptyPaddingNeverWidens(digits: string, width: nat, k: nat)
    requires |digits| < width
    ensures PadRounds(digits, "", k) == digits && |PadRounds(digits, "", k)| < width
  {
    if k > 0 {
      EmptyPaddingNeverWidens(digits, width, k - 1);
      assert "" + digits == digits;
    }
  }

  /** The examples of NumberToString's own documentation: (5, 3, "0", 10)
      gives "005" and (5, 3, "0", 2) gives "101". */
  lemma DocumentedExamples()
    ensures var d := Formatted(Unsigned(5), 10); Repeat("0", PadCount(|d|, 3, 1)) + d == "005"
    ensures var d := Formatted(Unsigned(5), 2); Repeat("0", PadCount(|d|, 3, 1)) + d == "101"
  {
    assert FormatUint(5, 10) == "5";
    assert FormatUint(2, 2) == "10";
    assert FormatUint(5, 2) == "101";
  }

  /** A negative value keeps its sign inside the digits, so the padding goes
      in front of the '-': -5 padded to 4 with "0" is "00-5". */
  lemma PaddingPrecedesSign()
    ensures var d := Formatted(Signed(-5), 10); Repeat("0", PadCount(|d|, 4, 1)) + d == "00-5"
  {
    assert FormatUint(5, 10) == "5";
  }

  /** A numeral of the base stays below base^|s|: the digit count bounds the
      value. */
  function Power(base: nat, k: nat): nat {
    if k == 0 then 1 else base * Power(base, k - 1)
  }

  /** A value below base^k has at most k digits. */
  lemma {:induction false} FormatUintLength(n: nat, base: nat, k: nat)
    requires 2 <= base <= 36 && k >= 1 && n < Power(base, k)
    ensures |FormatUint(n, base)| <= k
    decreases n
  {
    if n >= base {
      assert k != 1 by {
        assert Power(base, 1) == base * Power(base, 0);
      }
      assert n / base < Power(base, k - 1) by {
        assert Power(base, k) == base * Power(base, k - 1);
        DivisionBelow(n, base, Power(base, k - 1));
      }
      DivisionShrinks(n, base);
      FormatUintLength(n / base, base, k - 1);
    }
  }

  // ---- Contains, Ternary and Try ----

  /** Contains: scans the slice in order and stops at the first element
      equal to element. */
  method Contains<T(==)>(element: T, slice: seq<T>) returns (r: bool)
    ensures r <==> element in slice
  {
    for i := 0 to |slice|
      invariant element !in slice[..i]
    {
      if element == slice[i] {
        return true;
      }
    }
    assert slice[..|slice|] == slice;
    return false;
  }

  /** Ternary: a when the condition holds, b otherwise. */
  function Ternary<T>(condition: bool, a: T, b: T): T {
    if condition then a else b
  }

  /** Try: calls the functions in order and returns the first error; the
      functions after it are not called. called counts the calls made. */
  method Try<E>(funcs: seq<() -> Option<E>>) returns (err: Option<E>, called: nat)
    ensures called <= |funcs|
    ensures forall i :: 0 <= i < called && (err.None? || i < called - 1) ==> funcs[i]().None?
    ensures err.Some? ==> called > 0 && err == funcs[called - 1]()
    ensures err.None? ==> called == |funcs|
  {
    called := 0;
    for i := 0 to |funcs|
      invariant called == i
      invariant forall j :: 0 <= j < i ==> funcs[j]().None?
    {
      var e := funcs[i]();
      called := called + 1;
      if e.Some? {
        return e, called;
      }
    }
    return None, called;
  }
}
