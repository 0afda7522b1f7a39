/**
 * Reading a shot such as "B7" or "j10" into a 1-based (column, row) pair, as
 * BoardService.Shoot does before it looks at the board
 * (ConsoleApp1/BoardService.cs): the regular expression check, the
 * `Alphabet` enum lookup of the upper-cased letter, and `int.TryParse` of the
 * digits. The .NET library calls are replaced by character-level definitions.
 */
module ShotInput {
  import opened Wrappers

  /** `(int)Alphabet.Z`: the enum numbers its letters A = 1, B = 2, ..., Z = 26. */
  const AlphabetZ := 26

  const IntMaxValue := 0x7FFF_FFFF

  predicate IsAsciiLetter(c: char)
  {
    'a' <= c <= 'z' || 'A' <= c <= 'Z'
  }

  predicate IsAsciiDigit(c: char)
  {
    '0' <= c <= '9'
  }

  /** The white space `int.TryParse` skips around a number: tab, line feed,
      vertical tab, form feed, carriage return and space. */
  predicate IsWhiteSpace(c: char)
  {
    c == ' ' || '\t' <= c <= '\r'
  }

  predicate AllDigits(s: string)
  {
    forall i :: 0 <= i < |s| ==> IsAsciiDigit(s[i])
  }

  /** One letter followed by one or two digits, and nothing else. */
  predicate IsShotText(s: string)
  {
    2 <= |s| <= 3 && IsAsciiLetter(s[0]) && AllDigits(s[1..])
  }

  /** `^[a-zA-Z]{1}[0-9]{1,2}$`. Without the multiline option .NET's `$` matches at
      the end of the input or just before a final line feed. */
  predicate MatchesShootRegex(s: string)
  {
    IsShotText(s) || (|s| > 0 && s[|s| - 1] == '\n' && IsShotText(s[..|s| - 1]))
  }

  /** Upper-casing, for the characters that can reach it (ASCII). */
  function UpperChar(c: char): char
  {
    if 'a' <= c <= 'z' then (c as int - 32) as char else c
  }

  function ToUpper(s: string): (u: string)
    ensures |u| == |s|
    ensures forall i :: 0 <= i < |u| ==> !('a' <= u[i] <= 'z')
    ensures forall i :: 0 <= i < |s| && !('a' <= s[i] <= 'z') ==> u[i] == s[i]
  {
    seq(|s|, i requires 0 <= i < |s| => UpperChar(s[i]))
  }

  /** `Enum.IsDefined` and `Enum.Parse` of `Alphabet` by name: the names are the
      single capital letters, numbered from 1. */
  function AlphabetValue(name: string): Option<int>
  {
    if |name| == 1 && 'A' <= name[0] <= 'Z' then Some(name[0] as int - 'A' as int + 1) else None
  }

  /** The decimal value of a string of digits. */
  function DigitsValue(s: string): nat
    requires AllDigits(s)
  {
    if s == [] then 0 else DigitsValue(s[..|s| - 1]) * 10 + (s[|s| - 1] as int - '0' as int)
  }

  function TrimStart(s: string): string
  {
    if |s| > 0 && IsWhiteSpace(s[0]) then TrimStart(s[1..]) else s
  }

  function TrimEnd(s: string): string
  {
    if |s| > 0 && IsWhiteSpace(s[|s| - 1]) then TrimEnd(s[..|s| - 1]) else s
  }

  /** `int.TryParse` with its default style: optional surrounding white space, an
      optional sign, then decimal digits whose value fits a 32-bit `int`. */
  function TryParseInt(s: string): (v: Option<int>)
    ensures v.Some? ==> -IntMaxValue - 1 <= v.value <= IntMaxValue
  {
    var t := TrimStart(TrimEnd(s));
    if |t| > 0 && (t[0] == '-' || t[0] == '+') then
      var digits := t[1..];
      if |digits| > 0 && AllDigits(digits) then
        var v: int := DigitsValue(digits);
        if t[0] == '-' then (if v <= IntMaxValue + 1 then Some(-v) else None)
        else (if v <= IntMaxValue then Some(v) else None)
      else None
    else if |t| > 0 && AllDigits(t) && DigitsValue(t) <= IntMaxValue then Some(DigitsValue(t))
    else None
  }

  /** The (column, row) a shot names, or None where Shoot answers IncorrectShotValue
      before it consults the board: the regular expression fails, the letter is
      not an `Alphabet` name, or the digits do not parse. A shot that parses
      matches the expression, its column is its letter's alphabet position and its
      row is a 32-bit integer. */
  function ParseShot(shootSquarePosition: string): (target: Option<(int, int)>)
    ensures target.Some? ==> MatchesShootRegex(shootSquarePosition)
    ensures target.Some? ==>
      target.value.0 == LetterIndex(shootSquarePosition[0]) && 1 <= target.value.0 <= AlphabetZ
    ensures target.Some? ==> -IntMaxValue - 1 <= target.value.1 <= IntMaxValue
  {
    if !MatchesShootRegex(shootSquarePosition) then None
    else
      var letterStr := shootSquarePosition[..1];
      var numberStr := shootSquarePosition[1..];
      match AlphabetValue(ToUpper(letterStr))
      case None => None
      case Some(letter) =>
        match TryParseInt(numberStr)
        case None => None
        case Some(number) => Some((letter, number))
  }

  /** The alphabet position of an ASCII letter, either case. */
  function LetterIndex(c: char): int
  {
    UpperChar(c) as int - 'A' as int + 1
  }

  /** The digits of a shot that matches the regular expression, without the final line feed. */
  function ShotDigits(s: string): string
    requires MatchesShootRegex(s)
  {
    if s[|s| - 1] == '\n' then s[1..|s| - 1] else s[1..]
  }

  /** One or two digits are worth at most 99. */
  lemma {:induction false} ShortDigitsValue(s: string)
    requires AllDigits(s) && |s| <= 2
    ensures DigitsValue(s) <= 99
    ensures |s| == 1 ==> DigitsValue(s) == s[0] as int - '0' as int
    ensures |s| == 2 ==> DigitsValue(s) == 10 * (s[0] as int - '0' as int) + (s[1] as int - '0' as int)
  {
    if s != [] {
      ShortDigitsValue(s[..|s| - 1]);
    }
  }

  /** A run of digits, with or without a final line feed, is untouched by trimming. */
  lemma TrimDigits(d: string, tail: string)
    requires |d| > 0 && AllDigits(d)
    requires tail == [] || tail == "\n"
    ensures TrimStart(TrimEnd(d + tail)) == d
  {
    assert !IsWhiteSpace(d[|d| - 1]) && !IsWhiteSpace(d[0]);
    if tail == "\n" {
      assert (d + tail)[..|d + tail| - 1] == d;
    }
  }

  /** Upper-casing the one-letter prefix of a shot upper-cases its letter. */
  lemma UpperFirst(s: string)
    requires |s| > 0
    ensures ToUpper(s[..1]) == [UpperChar(s[0])]
  {
  }

  /** The fallbacks after the regular expression are unreachable: a shot parses
      exactly when it matches, and then names its letter's alphabet position
      (1 to 26) and its one- or two-digit row (0 to 99). */
  lemma ParseShotAcceptsExactlyTheRegex(s: string)
    ensures ParseShot(s).Some? <==> MatchesShootRegex(s)
    ensures ParseShot(s).Some? ==>
      ParseShot(s).value == (LetterIndex(s[0]), DigitsValue(ShotDigits(s))) &&
      1 <= ParseShot(s).value.0 <= AlphabetZ && 0 <= ParseShot(s).value.1 <= 99
  {
    if MatchesShootRegex(s) {
      var d := ShotDigits(s);
      var tail := if s[|s| - 1] == '\n' then "\n" else "";
      assert s[1..] == d + tail;
      assert AllDigits(d);
      TrimDigits(d, tail);
      ShortDigitsValue(d);
      UpperFirst(s);
    }
  }

  /** The letter's case does not matter: upper-casing the first character never changes the outcome. */
  lemma ParseShotIgnoresLetterCase(s: string)
    requires |s| > 0
    ensures ParseShot(s) == ParseShot([UpperChar(s[0])] + s[1..])
  {
    var u := [UpperChar(s[0])] + s[1..];
    assert u[1..] == s[1..];
    UpperFirst(s);
    UpperFirst(u);
    if |s| > 0 && s[|s| - 1] == '\n' && |s| >= 2 {
      assert u[..|u| - 1][1..] == s[..|s| - 1][1..];
    }
    assert MatchesShootRegex(u) <==> MatchesShootRegex(s);
  }

  /** The canonical text of a shot: the capital letter of the column, then the row
      in decimal without leading zeros. */
  function FormatShot(column: int, row: int): string
    requires 1 <= column <= AlphabetZ && 0 <= row <= 99
  {
    var letter := ('A' as int + column - 1) as char;
    var digit := (r: int) requires 0 <= r <= 9 => ('0' as int + r) as char;
    if row < 10 then [letter, digit(row)] else [letter, digit(row / 10), digit(row % 10)]
  }

  /** Reading a formatted shot gives back its column and row. */
  lemma ParseFormatShot(column: int, row: int)
    requires 1 <= column <= AlphabetZ && 0 <= row <= 99
    ensures ParseShot(FormatShot(column, row)) == Some((column, row))
  {
    var s := FormatShot(column, row);
    assert IsShotText(s);
    ParseShotAcceptsExactlyTheRegex(s);
    ShortDigitsValue(ShotDigits(s));
  }
}
