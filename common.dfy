/** Small value types shared by every module of the model. */
module Common {

  /** A Java `null`, a missing TypeScript prop, or an empty `Optional`. */
  datatype Option<+T> = None | Some(value: T)

  /** The value of a call that either returns or throws one of the exceptions of `E`. */
  datatype Result<+T, +E> = Ok(value: T) | Err(error: E)

  /**
   * The answer of a Spring Data finder declared to return `Optional<T>`:
   * no row, exactly one row, or more than one row (Spring Data then throws
   * `IncorrectResultSizeDataAccessException` instead of choosing one).
   */
  datatype Lookup<+T> = Absent | Found(value: T) | NotUnique
}

/** Text helpers: decimal rendering, ASCII case folding and substring search. */
module Text {

  predicate IsDigit(c: char) {
    '0' <= c <= '9'
  }

  predicate AllDigits(s: string) {
    forall k :: 0 <= k < |s| ==> IsDigit(s[k])
  }

  function DigitChar(d: nat): (c: char)
    requires d < 10
    ensures IsDigit(c) && c as int - '0' as int == d
  {
    (d + '0' as int) as char
  }

  /** The number a string of decimal digits denotes. */
  function DigitsValue(s: string): nat
    requires AllDigits(s)
  {
    if s == [] then 0 else 10 * DigitsValue(s[..|s| - 1]) + (s[|s| - 1] as int - '0' as int)
  }

  /** Decimal rendering of a natural number, as Java's `Long.toString` and JavaScript's `String` give it. */
  function NatToString(n: nat): (r: string)
    ensures |r| >= 1 && AllDigits(r)
    ensures r[0] == '0' ==> n == 0 && r == "0"
    ensures DigitsValue(r) == n
  {
    if n < 10 then [DigitChar(n)]
    else
      var prefix := NatToString(n / 10);
      var r := prefix + [DigitChar(n % 10)];
      assert r[..|r| - 1] == prefix;
      r
  }

  /** Decimal rendering of an integer, with a leading `-` when it is negative. */
  function IntToString(i: int): (r: string)
    ensures i >= 0 ==> r == NatToString(i)
    ensures i < 0 ==> r == "-" + NatToString(-i)
  {
    if i < 0 then "-" + NatToString(-i) else NatToString(i)
  }

  /**
   * Lower-casing of the ASCII letters A-Z only; every other character is kept.
   * SQL `LOWER` also folds non-ASCII letters, which this function does not.
   */
  function ToLower(s: string): (r: string)
    ensures |r| == |s|
    ensures forall k :: 0 <= k < |s| ==> r[k] == (if 'A' <= s[k] <= 'Z' then (s[k] as int + 32) as char else s[k])
  {
    if s == [] then [] else ToLower(s[..|s| - 1]) + [if 'A' <= s[|s| - 1] <= 'Z' then (s[|s| - 1] as int + 32) as char else s[|s| - 1]]
  }

  predicate OccursAt(text: string, pattern: string, i: nat) {
    i + |pattern| <= |text| && text[i..i + |pattern|] == pattern
  }

  /** `text LIKE '%pattern%'`, with the pattern taken literally. */
  predicate Contains(text: string, pattern: string) {
    exists i: nat | i <= |text| :: OccursAt(text, pattern, i)
  }

  /** Concatenation of the parts with `sep` between neighbours (JavaScript `Array.prototype.join`). */
  function Join(parts: seq<string>, sep: string): (r: string)
    ensures parts == [] ==> r == ""
    ensures |parts| == 1 ==> r == parts[0]
  {
    if parts == [] then ""
    else if |parts| == 1 then parts[0]
    else Join(parts[..|parts| - 1], sep) + sep + parts[|parts| - 1]
  }

  lemma {:induction false} NatToStringInjective(m: nat, n: nat)
    requires NatToString(m) == NatToString(n)
    ensures m == n
  {
    assert DigitsValue(NatToString(m)) == m;
  }
}
