/**
 * Shared vocabulary: optional values (Java's null), results (Java's thrown
 * exceptions), the bounds of Java's `int` and `long`, and the string helpers
 * the library relies on (`String.split`, joining with a separator,
 * `String.valueOf` of integers and `Integer.parseInt` / `Long.parseLong`).
 */
module Common {

  datatype Option<+T> = None | Some(value: T)

  /** The exceptions the modelled code throws or catches. */
  datatype Exception =
    | IllegalArgument
    | IllegalState
    | NoSuchField
    | NumberFormat
    | NullPointer
    | NotFound
    | NoSuchElement
    | Parse
    | IndexOutOfBounds
    | IllegalFormat

  datatype Result<+T> = Ok(value: T) | Err(error: Exception)

  const INT_MIN: int := -0x8000_0000
  const INT_MAX: int := 0x7fff_ffff
  const LONG_MIN: int := -0x8000_0000_0000_0000
  const LONG_MAX: int := 0x7fff_ffff_ffff_ffff

  /** Java's `long`. */
  type Long = x: int | LONG_MIN <= x <= LONG_MAX

  /** `TextUtils.isEmpty`: null or of length zero. */
  predicate IsEmpty(s: Option<string>) {
    s.None? || |s.value| == 0
  }

  /** One more element of a prefix. */
  lemma TakeSnoc<T>(s: seq<T>, i: nat)
    requires i < |s|
    ensures s[..i + 1] == s[..i] + [s[i]]
  {
  }

  lemma AppendAssoc<T>(a: seq<T>, b: seq<T>, c: seq<T>)
    ensures (a + b) + c == a + (b + c)
  {
  }

  /** What follows a prefix. */
  lemma DropPrefix<T>(a: seq<T>, b: seq<T>)
    ensures a <= a + b && (a + b)[|a|..] == b
  {
  }

  // ---------------------------------------------------------------------
  // Joining and splitting

  /** The parts separated by `sep`, as `StringFormatter.printIterable` does. */
  function Join(parts: seq<string>, sep: string): string {
    if |parts| == 0 then ""
    else if |parts| == 1 then parts[0]
    else parts[0] + sep + Join(parts[1..], sep)
  }

  /** Joining one more part appends the separator and the part. */
  lemma {:induction false} JoinSnoc(xs: seq<string>, x: string, sep: string)
    requires |xs| > 0
    ensures Join(xs + [x], sep) == Join(xs, sep) + sep + x
  {
    if |xs| == 1 {
      assert (xs + [x])[1..] == [x];
    } else {
      assert (xs + [x])[1..] == xs[1..] + [x];
      JoinSnoc(xs[1..], x, sep);
    }
  }

  /** `s` repeated `n` times. */
  function Repeat(s: string, n: nat): string {
    if n == 0 then "" else s + Repeat(s, n - 1)
  }

  /** Number of occurrences of `c` in `s`. */
  function CountChar(s: string, c: char): nat {
    if |s| == 0 then 0 else (if s[0] == c then 1 else 0) + CountChar(s[1..], c)
  }

  lemma {:induction false} CountCharAppend(a: string, b: string, c: char)
    ensures CountChar(a + b, c) == CountChar(a, c) + CountChar(b, c)
  {
    if |a| > 0 {
      assert (a + b)[1..] == a[1..] + b;
      CountCharAppend(a[1..], b, c);
    } else {
      assert a + b == b;
    }
  }

  lemma {:induction false} RepeatSnoc(s: string, n: nat)
    ensures Repeat(s, n) + s == Repeat(s, n + 1)
  {
    if n > 0 {
      RepeatSnoc(s, n - 1);
    }
  }

  lemma {:induction false} CountCharRepeat(s: string, n: nat, c: char)
    ensures CountChar(Repeat(s, n), c) == n * CountChar(s, c)
  {
    if n > 0 {
      CountCharRepeat(s, n - 1, c);
      CountCharAppend(s, Repeat(s, n - 1), c);
    }
  }

  /** Every piece between occurrences of `c`, empty pieces included. */
  function SplitAll(s: string, c: char): (r: seq<string>)
    ensures |r| >= 1
  {
    if |s| == 0 then [""]
    else
      var rest := SplitAll(s[1..], c);
      if s[0] == c then [""] + rest
      else [[s[0]] + rest[0]] + rest[1..]
  }

  function DropTrailingEmpty(xs: seq<string>): (r: seq<string>)
    ensures |r| <= |xs| && r == xs[..|r|]
    ensures |r| > 0 ==> r[|r| - 1] != ""
    ensures forall k | |r| <= k < |xs| :: xs[k] == ""
  {
    if |xs| > 0 && xs[|xs| - 1] == "" then DropTrailingEmpty(xs[..|xs| - 1]) else xs
  }

  /**
   * Java's `s.split(c)` for a one-character pattern: the whole string when
   * `c` does not occur, otherwise every piece with the trailing empty pieces
   * removed.
   */
  function JavaSplit(s: string, c: char): seq<string> {
    if c !in s then [s] else DropTrailingEmpty(SplitAll(s, c))
  }

  lemma {:induction false} SplitAllPieces(s: string, c: char)
    ensures Join(SplitAll(s, c), [c]) == s
    ensures forall k | 0 <= k < |SplitAll(s, c)| :: c !in SplitAll(s, c)[k]
    ensures |SplitAll(s, c)| == CountChar(s, c) + 1
  {
    if |s| > 0 {
      SplitAllPieces(s[1..], c);
      assert s == [s[0]] + s[1..];
    }
  }

  lemma {:induction false} JoinAppendEmpty(xs: seq<string>, n: nat, c: char)
    requires |xs| > 0
    ensures Join(xs + seq(n, _ => ""), [c]) == Join(xs, [c]) + Repeat([c], n)
  {
    if |xs| == 1 {
      JoinEmpties(xs[0], n, c);
    } else {
      assert (xs + seq(n, _ => ""))[1..] == xs[1..] + seq(n, _ => "");
      JoinAppendEmpty(xs[1..], n, c);
    }
  }

  lemma {:induction false} JoinEmpties(first: string, n: nat, c: char)
    ensures Join([first] + seq(n, _ => ""), [c]) == first + Repeat([c], n)
    decreases n
  {
    if n > 0 {
      assert ([first] + seq(n, _ => ""))[1..] == [""] + seq(n - 1, _ => "");
      JoinEmpties("", n - 1, c);
    }
  }

  /** Dropping trailing empty pieces loses only separators at the end of the joined string. */
  lemma TrailingEmpties(all: seq<string>, c: char) returns (n: nat)
    requires |all| >= 1
    ensures Join(DropTrailingEmpty(all), [c]) + Repeat([c], n) == Join(all, [c])
  {
    var r := DropTrailingEmpty(all);
    var m := |all| - |r|;
    assert all == r + seq(m, _ => "");
    if |r| > 0 {
      JoinAppendEmpty(r, m, c);
      n := m;
    } else {
      assert all == [""] + seq(m - 1, _ => "");
      JoinEmpties("", m - 1, c);
      n := m - 1;
    }
  }

  /**
   * Splitting loses only the trailing separators: rejoining the pieces and
   * appending as many separators as the dropped trailing pieces gives back
   * the input, and no piece contains the separator.
   */
  lemma JavaSplitPieces(s: string, c: char)
    ensures var r := JavaSplit(s, c);
      && |r| <= CountChar(s, c) + 1
      && (forall k | 0 <= k < |r| :: c !in r[k])
      && exists n: nat :: Join(r, [c]) + Repeat([c], n) == s
  {
    SplitAllPieces(s, c);
    if c !in s {
      assert Join([s], [c]) + Repeat([c], 0) == s;
    } else {
      var all := SplitAll(s, c);
      var r := DropTrailingEmpty(all);
      var n := TrailingEmpties(all, c);
      assert forall k | 0 <= k < |r| :: r[k] == all[k];
    }
  }

  // ---------------------------------------------------------------------
  // Decimal rendering and parsing

  predicate IsDigit(ch: char) { '0' <= ch <= '9' }

  function DigitChar(d: nat): char
    requires d < 10
  {
    ['0', '1', '2', '3', '4', '5', '6', '7', '8', '9'][d]
  }

  function NatToString(n: nat): (r: string)
    ensures |r| >= 1 && forall k | 0 <= k < |r| :: IsDigit(r[k])
  {
    if n < 10 then [DigitChar(n)] else NatToString(n / 10) + [DigitChar(n % 10)]
  }

  /** `String.valueOf(long)`. */
  function IntToString(n: int): string {
    if n < 0 then "-" + NatToString(-n) else NatToString(n)
  }

  /** The value of a non-empty string of decimal digits. */
  function DigitsValue(s: string): nat
    requires forall k | 0 <= k < |s| :: IsDigit(s[k])
  {
    if |s| == 0 then 0
    else
      assert IsDigit(s[|s| - 1]);
      DigitsValue(s[..|s| - 1]) * 10 + (s[|s| - 1] as int - '0' as int)
  }

  predicate AllDigits(s: string) {
    |s| >= 1 && forall k | 0 <= k < |s| :: IsDigit(s[k])
  }

  /**
   * `Integer.parseInt` (lo, hi = the int bounds) and `Long.parseLong`
   * (the long bounds): an optional sign followed by at least one digit,
   * whose value lies within the bounds; anything else is a
   * `NumberFormatException` (here `None`).
   */
  function ParseDecimal(s: string, lo: int, hi: int): Option<int> {
    var neg := |s| > 1 && s[0] == '-';
    var body := if |s| > 1 && (s[0] == '-' || s[0] == '+') then s[1..] else s;
    if !AllDigits(body) then None
    else
      var d: int := DigitsValue(body);
      var v: int := if neg then -d else d;
      if lo <= v <= hi then Some(v) else None
  }

  function ParseInt(s: string): Option<int> { ParseDecimal(s, INT_MIN, INT_MAX) }

  function ParseLong(s: string): Option<int> { ParseDecimal(s, LONG_MIN, LONG_MAX) }

  /** What parses lies within the bounds. */
  lemma ParseDecimalBounds(s: string, lo: int, hi: int)
    ensures ParseDecimal(s, lo, hi).Some? ==> lo <= ParseDecimal(s, lo, hi).value <= hi
  {
  }

  lemma {:induction false} NatToStringValue(n: nat)
    ensures DigitsValue(NatToString(n)) == n
  {
    var s := NatToString(n);
    if n >= 10 {
      NatToStringValue(n / 10);
      assert s[..|s| - 1] == NatToString(n / 10);
    }
  }

  /** Parsing what `String.valueOf` rendered gives back the number. */
  lemma ParseRendered(n: int, lo: int, hi: int)
    requires lo <= n <= hi
    ensures ParseDecimal(IntToString(n), lo, hi) == Some(n)
  {
    var s := IntToString(n);
    if n < 0 {
      NatToStringValue(-n);
      assert s[1..] == NatToString(-n);
    } else {
      NatToStringValue(n);
    }
  }

  lemma {:induction false} NatToStringInjective(a: nat, b: nat)
    requires NatToString(a) == NatToString(b)
    ensures a == b
  {
    NatToStringValue(a);
    NatToStringValue(b);
  }

  lemma SignChar(n: int)
    ensures |IntToString(n)| >= 1 && (IntToString(n)[0] == '-' <==> n < 0)
  {
    if n >= 0 {
      assert IsDigit(NatToString(n)[0]);
    }
  }

  /** Distinct numbers render differently, so "table:id" signatures identify ids. */
  lemma IntToStringInjective(a: int, b: int)
    requires IntToString(a) == IntToString(b)
    ensures a == b
  {
    SignChar(a);
    SignChar(b);
    if a < 0 {
      assert IntToString(a)[1..] == NatToString(-a);
      assert IntToString(b)[1..] == NatToString(-b);
      NatToStringInjective(-a, -b);
    } else {
      NatToStringInjective(a, b);
    }
  }
}
