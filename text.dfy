/** The few `java.lang.String` and `java.lang.Long` operations the core relies
    on, stated on `seq<char>`: `trim().isEmpty()`, `startsWith`, `split` on a
    one-character separator, `Long.parseLong`, `Long.toString`, ASCII
    `toUpperCase` and `equalsIgnoreCase`, and `contains`. */
module JavaText {
  import opened Wrappers

  const LongMin: int := -0x8000_0000_0000_0000
  const LongMax: int := 0x7FFF_FFFF_FFFF_FFFF

  /** A value a Java `long` can hold. */
  predicate InLongRange(n: int) {
    LongMin <= n <= LongMax
  }

  // ---------------------------------------------------------------------------
  // trim() and blank checks

  /** `String.trim` drops every leading and trailing character whose code is at
      most U+0020. */
  function TrimStart(s: string): (r: string)
    ensures |r| > 0 ==> r[0] > ' '
  {
    if |s| > 0 && s[0] <= ' ' then TrimStart(s[1..]) else s
  }

  function TrimEnd(s: string): string
  {
    if |s| > 0 && s[|s| - 1] <= ' ' then TrimEnd(s[..|s| - 1]) else s
  }

  function Trim(s: string): string
  {
    TrimEnd(TrimStart(s))
  }

  /** `s.trim().isEmpty()` */
  predicate IsBlank(s: string)
  {
    Trim(s) == ""
  }

  /** `s == null || s.trim().isEmpty()` */
  predicate NullOrBlank(s: Option<string>)
  {
    s.None? || IsBlank(s.value)
  }

  lemma {:induction false} TrimStartEmpty(s: string)
    ensures TrimStart(s) == "" <==> forall i | 0 <= i < |s| :: s[i] <= ' '
  {
    if |s| > 0 && s[0] <= ' ' {
      TrimStartEmpty(s[1..]);
      assert forall i | 1 <= i < |s| :: s[i] == s[1..][i - 1];
    }
  }

  lemma {:induction false} TrimEndEmpty(s: string)
    requires |s| > 0 ==> s[0] > ' '
    ensures TrimEnd(s) == "" <==> s == ""
  {
    if |s| > 0 && s[|s| - 1] <= ' ' {
      if |s| > 1 {
        TrimEndEmpty(s[..|s| - 1]);
      }
    }
  }

  /** A string is blank exactly when every one of its characters is at most
      U+0020: blankness does not depend on where the spaces are. */
  lemma BlankIffAllSpace(s: string)
    ensures IsBlank(s) <==> forall i | 0 <= i < |s| :: s[i] <= ' '
  {
    TrimEndEmpty(TrimStart(s));
    TrimStartEmpty(s);
  }

  // ---------------------------------------------------------------------------
  // startsWith, contains

  predicate StartsWith(s: string, prefix: string)
  {
    |prefix| <= |s| && s[..|prefix|] == prefix
  }

  /** `s.contains(sub)`, and SQL `s LIKE %sub%` read as plain substring search. */
  predicate Contains(s: string, sub: string)
  {
    StartsWith(s, sub) || (|s| > 0 && Contains(s[1..], sub))
  }

  // ---------------------------------------------------------------------------
  // split on a one-character separator

  /** Every piece between separators, empty pieces included. */
  function Pieces(s: string, sep: char): (r: seq<string>)
    ensures |r| >= 1
    ensures forall k | 0 <= k < |r| :: sep !in r[k]
  {
    if |s| == 0 then [""]
    else
      var rest := Pieces(s[1..], sep);
      if s[0] == sep then [""] + rest
      else [[s[0]] + rest[0]] + rest[1..]
  }

  function DropTrailingEmpty(ps: seq<string>): (r: seq<string>)
    ensures |r| <= |ps| && r == ps[..|r|]
    ensures |r| > 0 ==> r[|r| - 1] != ""
    ensures forall k | |r| <= k < |ps| :: ps[k] == ""
  {
    if |ps| > 0 && ps[|ps| - 1] == "" then DropTrailingEmpty(ps[..|ps| - 1]) else ps
  }

  /** `String.split(sep)`: with no separator the string itself; otherwise the
      pieces with trailing empty pieces removed. */
  function Split(s: string, sep: char): (r: seq<string>)
    ensures forall k | 0 <= k < |r| :: sep !in r[k]
  {
    if sep !in s then [s] else DropTrailingEmpty(Pieces(s, sep))
  }

  /** `String.join(sep, pieces)`: the pieces with one separator between
      neighbours. */
  function Join(ps: seq<string>, sep: char): string
    requires |ps| >= 1
  {
    if |ps| == 1 then ps[0] else ps[0] + [sep] + Join(ps[1..], sep)
  }

  /** Putting the separators back between the pieces gives the string back. */
  lemma {:induction false} JoinPieces(s: string, sep: char)
    ensures Join(Pieces(s, sep), sep) == s
  {
    if |s| > 0 {
      var rest := Pieces(s[1..], sep);
      JoinPieces(s[1..], sep);
      if s[0] == sep {
        assert Pieces(s, sep)[1..] == rest;
        assert s == [sep] + s[1..];
      } else {
        var ps := Pieces(s, sep);
        assert ps[1..] == rest[1..];
        if |rest| > 1 {
          assert Join(ps, sep) == [s[0]] + rest[0] + [sep] + Join(rest[1..], sep);
        }
        assert s == [s[0]] + s[1..];
      }
    }
  }

  /** A string without the separator is one piece. */
  lemma {:induction false} PiecesWithoutSeparator(s: string, sep: char)
    requires sep !in s
    ensures Pieces(s, sep) == [s]
  {
    if |s| > 0 {
      PiecesWithoutSeparator(s[1..], sep);
      assert s == [s[0]] + s[1..];
    }
  }

  /** `split` keeps the pieces in order and drops only empty pieces at the
      end, except that the empty string splits into itself. */
  lemma SplitIsPiecesLessTrailingEmpty(s: string, sep: char)
    ensures var ps, r := Pieces(s, sep), Split(s, sep);
      (s != "" ==> r == DropTrailingEmpty(ps)) &&
      (s == "" ==> r == [""]) &&
      |r| <= |ps| && r == ps[..|r|] && (forall k | |r| <= k < |ps| :: ps[k] == "")
  {
    if sep !in s {
      PiecesWithoutSeparator(s, sep);
    }
  }

  // ---------------------------------------------------------------------------
  // Long.toString and Long.parseLong

  predicate IsDigit(c: char)
  {
    '0' <= c <= '9'
  }

  predicate AllDigits(s: string)
  {
    forall i | 0 <= i < |s| :: IsDigit(s[i])
  }

  function DigitChar(d: nat): char
    requires d < 10
  {
    ('0' as int + d) as char
  }

  /** Value of a string of decimal digits, most significant first. */
  function DigitsValue(s: string): nat
    requires AllDigits(s)
  {
    if |s| == 0 then 0
    else 10 * DigitsValue(s[..|s| - 1]) + (s[|s| - 1] as int - '0' as int)
  }

  /** Decimal digits of a natural number, without leading zeros. */
  function Digits(n: nat): (r: string)
    ensures |r| >= 1 && AllDigits(r)
  {
    if n < 10 then [DigitChar(n)] else Digits(n / 10) + [DigitChar(n % 10)]
  }

  /** `Long.toString(n)`, which is also what `"" + n` produces. */
  function DecimalString(n: int): string
  {
    if n < 0 then "-" + Digits(-n) else Digits(n)
  }

  /** `Long.parseLong(s)`: an optional sign followed by at least one decimal
      digit, and a value that fits in a `long`; anything else throws
      `NumberFormatException` (`None`). */
  function ParseLong(s: string): (r: Option<int>)
    ensures r.Some? ==> InLongRange(r.value)
  {
    if |s| == 0 then None
    else if s[0] == '-' || s[0] == '+' then
      if |s| == 1 || !AllDigits(s[1..]) then None
      else
        var v: int := if s[0] == '-' then -(DigitsValue(s[1..]) as int) else DigitsValue(s[1..]);
        if InLongRange(v) then Some(v) else None
    else if AllDigits(s) && InLongRange(DigitsValue(s)) then Some(DigitsValue(s))
    else None
  }

  lemma {:induction false} DigitsValueOfDigits(n: nat)
    ensures DigitsValue(Digits(n)) == n
  {
    if n >= 10 {
      var d := Digits(n);
      DigitsValueOfDigits(n / 10);
      assert d[..|d| - 1] == Digits(n / 10);
    }
  }

  /** The text of a negative number: a minus sign and the digits of its
      magnitude. */
  lemma NegativeText(n: int)
    requires n < 0
    ensures var s := DecimalString(n);
      |s| > 1 && s[0] == '-' && s[1..] == Digits(-n) && AllDigits(s[1..]) && DigitsValue(s[1..]) == -n
  {
    DigitsValueOfDigits(-n);
    assert DecimalString(n)[1..] == Digits(-n);
  }

  /** The text of a non-negative number: digits only, starting with a digit. */
  lemma NonNegativeText(n: int)
    requires n >= 0
    ensures var s := DecimalString(n);
      |s| >= 1 && IsDigit(s[0]) && AllDigits(s) && DigitsValue(s) == n
  {
    DigitsValueOfDigits(n);
  }

  /** Round trip: parsing what `Long.toString` prints gives the number back
      for every value a `long` can hold, and fails for every other value
      (Jackson hands such numbers over as `BigInteger`, whose text
      `Long.valueOf` rejects). That is why a JSON integer field reaches the
      handler's `Long.valueOf(x.toString())` unchanged or not at all. */
  lemma ParseDecimalString(n: int)
    ensures ParseLong(DecimalString(n)) == (if InLongRange(n) then Some(n) else None)
  {
    var s := DecimalString(n);
    if n < 0 {
      NegativeText(n);
      assert ParseLong(s) == (if InLongRange(-(DigitsValue(s[1..]) as int)) then Some(-(DigitsValue(s[1..]) as int)) else None);
    } else {
      NonNegativeText(n);
      assert s[0] != '-' && s[0] != '+';
      assert ParseLong(s) == (if InLongRange(DigitsValue(s)) then Some(DigitsValue(s)) else None);
    }
  }

  // ---------------------------------------------------------------------------
  // ASCII case mapping

  function UpperChar(c: char): char
  {
    if 'a' <= c <= 'z' then (c as int - 32) as char else c
  }

  /** `String.toUpperCase`, restricted to the ASCII letters. */
  function ToUpper(s: string): (r: string)
    ensures |r| == |s|
    ensures forall i | 0 <= i < |s| :: r[i] == UpperChar(s[i])
  {
    if |s| == 0 then "" else [UpperChar(s[0])] + ToUpper(s[1..])
  }

  /** `a.equalsIgnoreCase(b)` on ASCII text. */
  predicate EqualsIgnoreCase(a: string, b: string)
  {
    ToUpper(a) == ToUpper(b)
  }
}
