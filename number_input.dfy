/**
 * The backoffice's formatted-number input (`FormatNumberInput`): a text field
 * that shows digits with thousands separators while handing the unformatted
 * text to the form.
 */
module NumberInput {
  import opened Common
  import opened Text

  // ---------------------------------------------------------------------------
  // formatNumber: value.replace(/\B(?=(\d{3})+(?!\d))/g, ',')
  // ---------------------------------------------------------------------------

  /** A character of the regular-expression class `\w`. */
  predicate IsWordChar(c: char) {
    IsDigit(c) || 'a' <= c <= 'z' || 'A' <= c <= 'Z' || c == '_'
  }

  /** Length of the maximal run of digits that starts at index `p`. */
  function DigitRun(s: string, p: nat): (n: nat)
    requires p <= |s|
    ensures p + n <= |s|
    decreases |s| - p
  {
    if p < |s| && IsDigit(s[p]) then 1 + DigitRun(s, p + 1) else 0
  }

  /**
   * The regular expression matches the empty string at index `p`: `\B` holds
   * (the lookahead needs a digit at `p`, a word character, so the character
   * before `p` must be one too, and `p` cannot be 0), and the digits from `p`
   * on split into groups of three that end where the run of digits ends.
   */
  predicate CommaBefore(s: string, p: nat)
    requires p <= |s|
  {
    0 < p < |s| && IsWordChar(s[p - 1]) && DigitRun(s, p) > 0 && DigitRun(s, p) % 3 == 0
  }

  /** The replacement applied to the suffix of `s` from index `i`; every match is judged on the whole of `s`. */
  function FormatFrom(s: string, i: nat): string
    requires i <= |s|
    decreases |s| - i
  {
    if i == |s| then "" else Piece(s, i) + FormatFrom(s, i + 1)
  }

  /** What the replacement emits for index `i`: the character, preceded by `,` when the expression matches there. */
  function Piece(s: string, i: nat): string
    requires i < |s|
  {
    if CommaBefore(s, i) then [',', s[i]] else [s[i]]
  }

  /** `formatNumber` of the component. */
  function FormatNumber(s: string): string {
    FormatFrom(s, 0)
  }

  /** `value.replace(/,/g, '')`: the unformatting that undoes `FormatNumber`. */
  function RemoveCommas(s: string): string {
    if s == [] then "" else (if s[0] == ',' then "" else [s[0]]) + RemoveCommas(s[1..])
  }

  /** The reference grouping of a digit string: three digits at a time, counted from the right. */
  function GroupDigits(d: string): string
    decreases |d|
  {
    if |d| <= 3 then d else GroupDigits(d[..|d| - 3]) + "," + d[|d| - 3..]
  }

  lemma {:induction false} RemoveCommasAppend(a: string, b: string)
    ensures RemoveCommas(a + b) == RemoveCommas(a) + RemoveCommas(b)
    decreases |a|
  {
    if a == [] {
      assert a + b == b;
    } else {
      assert (a + b)[1..] == a[1..] + b;
      RemoveCommasAppend(a[1..], b);
    }
  }

  lemma RemoveCommasChar(c: char)
    ensures RemoveCommas([c]) == if c == ',' then "" else [c]
  {
    assert [c][1..] == "";
  }

  lemma RemoveCommasCons(c: char, x: string)
    ensures RemoveCommas([c] + x) == (if c == ',' then "" else [c]) + RemoveCommas(x)
  {
    assert ([c] + x)[1..] == x;
  }

  lemma RemoveCommasPiece(s: string, i: nat)
    requires i < |s|
    ensures RemoveCommas(Piece(s, i)) == RemoveCommas([s[i]])
  {
    if CommaBefore(s, i) {
      RemoveCommasCons(',', [s[i]]);
    }
  }

  lemma {:induction false} RemoveCommasFormatFrom(s: string, i: nat)
    requires i <= |s|
    ensures RemoveCommas(FormatFrom(s, i)) == RemoveCommas(s[i..])
    decreases |s| - i
  {
    if i < |s| {
      var piece, rest := Piece(s, i), FormatFrom(s, i + 1);
      assert FormatFrom(s, i) == piece + rest;
      RemoveCommasFormatFrom(s, i + 1);
      RemoveCommasAppend(piece, rest);
      RemoveCommasPiece(s, i);
      RemoveCommasChar(s[i]);
      assert s[i..][1..] == s[i + 1..];
    }
  }

  /** Removing every `,` from `FormatNumber(s)` gives back `s` with its own commas removed. */
  lemma FormatNumberRemoveCommas(s: string)
    ensures RemoveCommas(FormatNumber(s)) == RemoveCommas(s)
  {
    RemoveCommasFormatFrom(s, 0);
    assert s[0..] == s;
  }

  lemma {:induction false} RemoveCommasNoComma(s: string)
    requires ',' !in s
    ensures RemoveCommas(s) == s
    decreases |s|
  {
    if s != [] {
      assert s[0] in s;
      assert forall c :: c in s[1..] ==> c in s;
      RemoveCommasNoComma(s[1..]);
    }
  }

  /** For text without commas, removing the commas of its formatted form gives back the text itself. */
  lemma FormatNumberRoundTrip(s: string)
    requires ',' !in s
    ensures RemoveCommas(FormatNumber(s)) == s
  {
    FormatNumberRemoveCommas(s);
    RemoveCommasNoComma(s);
  }

  lemma {:induction false} DigitRunOfDigits(s: string, p: nat)
    requires p <= |s| && AllDigits(s)
    ensures DigitRun(s, p) == |s| - p
    decreases |s| - p
  {
    if p < |s| {
      DigitRunOfDigits(s, p + 1);
    }
  }

  /** On a digit string, a comma goes before index `p` exactly when a positive multiple of three digits follows. */
  lemma CommaBeforeDigits(s: string, p: nat)
    requires p <= |s| && AllDigits(s)
    ensures CommaBefore(s, p) <==> 0 < p < |s| && (|s| - p) % 3 == 0
  {
    DigitRunOfDigits(s, p);
  }

  lemma {:induction false} FormatFromShort(d: string, i: nat)
    requires i <= |d| <= 3 && AllDigits(d)
    ensures FormatFrom(d, i) == d[i..]
    decreases |d| - i
  {
    if i < |d| {
      CommaBeforeDigits(d, i);
      FormatFromShort(d, i + 1);
      assert d[i..] == [d[i]] + d[i + 1..];
    }
  }

  /** Splitting off the last three digits: the prefix is formatted on its own and the last group follows a comma. */
  lemma {:induction false} FormatFromLastGroup(a: string, t: string, i: nat)
    requires |a| >= 1 && |t| == 3 && AllDigits(a + t) && i <= |a|
    ensures FormatFrom(a + t, i) == FormatFrom(a, i) + "," + t
    decreases |a| - i
  {
    var d := a + t;
    assert AllDigits(a) by {
      forall k | 0 <= k < |a| ensures IsDigit(a[k]) { assert a[k] == d[k]; }
    }
    if i == |a| {
      CommaBeforeDigits(d, i);
      CommaBeforeDigits(d, i + 1);
      CommaBeforeDigits(d, i + 2);
      assert Piece(d, i) == [',', t[0]];
      assert Piece(d, i + 1) == [t[1]];
      assert Piece(d, i + 2) == [t[2]];
      assert FormatFrom(d, i + 3) == "";
      assert FormatFrom(d, i + 2) == [t[2]];
      assert FormatFrom(d, i + 1) == [t[1]] + [t[2]];
      assert FormatFrom(d, i) == [',', t[0]] + ([t[1]] + [t[2]]);
      assert FormatFrom(a, i) == "";
      assert t == [t[0], t[1], t[2]];
    } else {
      CommaBeforeDigits(d, i);
      CommaBeforeDigits(a, i);
      assert (|d| - i) % 3 == (|a| - i) % 3;
      assert Piece(d, i) == Piece(a, i);
      FormatFromLastGroup(a, t, i + 1);
    }
  }

  /** On a digit string, `FormatNumber` is exactly the grouping by threes from the right. */
  lemma {:induction false} FormatNumberGroupsDigits(d: string)
    requires AllDigits(d)
    ensures FormatNumber(d) == GroupDigits(d)
    decreases |d|
  {
    if |d| <= 3 {
      FormatFromShort(d, 0);
      assert d[0..] == d;
    } else {
      var a, t := d[..|d| - 3], d[|d| - 3..];
      assert a + t == d;
      assert AllDigits(a) by {
        forall k | 0 <= k < |a| ensures IsDigit(a[k]) { assert a[k] == d[k]; }
      }
      FormatFromLastGroup(a, t, 0);
      FormatNumberGroupsDigits(a);
    }
  }

  lemma FormatNumberExample()
    ensures FormatNumber("1200000") == "1,200,000"
  {
    ExampleGrouped("1200000");
  }

  lemma ExampleGrouped(d: string)
    requires d == "1200000"
    ensures FormatNumber(d) == "1,200,000"
  {
    assert AllDigits(d);
    FormatNumberGroupsDigits(d);
    var a := d[..4];
    assert a == "1200" && d[4..] == "000";
    assert GroupDigits(a) == "1,200" by { assert a[..1] == "1" && a[1..] == "200"; }
  }

  lemma {:induction false} DigitRunPrefix(x: string, y: string, i: nat)
    requires i <= |x| && (y == [] || !IsDigit(y[0]))
    ensures DigitRun(x + y, i) == DigitRun(x, i)
    decreases |x| - i
  {
    if i < |x| {
      DigitRunPrefix(x, y, i + 1);
    }
  }

  lemma {:induction false} DigitRunSuffix(x: string, y: string, j: nat)
    requires j <= |y|
    ensures DigitRun(x + y, |x| + j) == DigitRun(y, j)
    decreases |y| - j
  {
    if j < |y| {
      DigitRunSuffix(x, y, j + 1);
    }
  }

  /** Text that ends before a non-digit is formatted as if it stood alone. */
  lemma {:induction false} FormatFromPrefix(x: string, y: string, i: nat)
    requires i <= |x| && (y == [] || !IsDigit(y[0]))
    ensures FormatFrom(x + y, i) == FormatFrom(x, i) + FormatFrom(x + y, |x|)
    decreases |x| - i
  {
    if i < |x| {
      DigitRunPrefix(x, y, i);
      assert Piece(x + y, i) == Piece(x, i);
      FormatFromPrefix(x, y, i + 1);
    }
  }

  /** Text that starts after a non-word character is formatted as if it stood alone. */
  lemma {:induction false} FormatFromSuffix(x: string, y: string, j: nat)
    requires j <= |y| && (x == [] || !IsWordChar(x[|x| - 1]))
    ensures FormatFrom(x + y, |x| + j) == FormatFrom(y, j)
    decreases |y| - j
  {
    forall k | j <= k < |y|
      ensures Piece(x + y, |x| + k) == Piece(y, k)
    {
      PieceSuffix(x, y, k);
    }
    FormatFromShift(x + y, y, |x|, j);
  }

  /** Two texts whose replacements agree index by index, one shifted by `offset`, are formatted alike. */
  lemma {:induction false} FormatFromShift(s: string, t: string, offset: nat, j: nat)
    requires |s| == offset + |t| && j <= |t|
    requires forall k :: j <= k < |t| ==> Piece(s, offset + k) == Piece(t, k)
    ensures FormatFrom(s, offset + j) == FormatFrom(t, j)
    decreases |t| - j
  {
    if j < |t| {
      FormatFromShift(s, t, offset, j + 1);
      assert offset + j + 1 == offset + (j + 1);
    }
  }

  /** After a non-word character, the replacement at each index of `y` is the one `y` alone gets. */
  lemma PieceSuffix(x: string, y: string, j: nat)
    requires j < |y| && (x == [] || !IsWordChar(x[|x| - 1]))
    ensures Piece(x + y, |x| + j) == Piece(y, j)
  {
    var s := x + y;
    DigitRunSuffix(x, y, j);
    assert s[|x| + j] == y[j];
    if j > 0 {
      assert s[|x| + j - 1] == y[j - 1];
      assert CommaBefore(s, |x| + j) == CommaBefore(y, j);
    } else if x != [] {
      assert s[|x| - 1] == x[|x| - 1];
      assert !CommaBefore(s, |x|);
    }
  }

  /**
   * Grouping restarts at every character that is not a regex word character,
   * such as `.`: the digits on either side are grouped separately.
   */
  lemma FormatNumberSplit(a: string, c: char, b: string)
    requires !IsWordChar(c)
    ensures FormatNumber(a + [c] + b) == FormatNumber(a) + [c] + FormatNumber(b)
  {
    var s := a + [c] + b;
    assert s == a + ([c] + b);
    FormatFromPrefix(a, [c] + b, 0);
    DigitRunSuffix(a, [c] + b, 0);
    assert Piece(s, |a|) == [c];
    assert s == (a + [c]) + b;
    FormatFromSuffix(a + [c], b, 0);
  }

  /** A decimal number is shown with its integer part and its fraction part each grouped by threes. */
  lemma FormatNumberDecimal(whole: string, fraction: string)
    requires AllDigits(whole) && AllDigits(fraction)
    ensures FormatNumber(whole + "." + fraction) == GroupDigits(whole) + "." + GroupDigits(fraction)
  {
    FormatNumberSplit(whole, '.', fraction);
    FormatNumberGroupsDigits(whole);
    FormatNumberGroupsDigits(fraction);
  }

  lemma FractionExampleParts(whole: string, fraction: string)
    requires whole == "1234" && fraction == "5678"
    ensures FormatNumber(whole + "." + fraction) == "1,234.5,678"
  {
    assert AllDigits(whole) && AllDigits(fraction);
    FormatNumberDecimal(whole, fraction);
    assert GroupDigits(whole) == "1,234" by { assert whole[..1] == "1" && whole[1..] == "234"; }
    assert GroupDigits(fraction) == "5,678" by { assert fraction[..1] == "5" && fraction[1..] == "678"; }
  }

  lemma FormatNumberFractionExample()
    ensures FormatNumber("1234.5678") == "1,234.5,678"
  {
    FractionExampleParts("1234", "5678");
    assert "1234" + "." + "5678" == "1234.5678";
  }

  /** Formatting a formatted digit string again changes nothing: a comma is no word character, so no new match arises. */
  lemma FormatNumberIdempotent(d: string)
    requires AllDigits(d)
    ensures FormatNumber(FormatNumber(d)) == FormatNumber(d)
  {
    FormatNumberGroupsDigits(d);
    GroupedIsFixed(d);
  }

  lemma {:induction false} GroupedIsFixed(d: string)
    requires AllDigits(d)
    ensures FormatNumber(GroupDigits(d)) == GroupDigits(d)
    decreases |d|
  {
    if |d| <= 3 {
      FormatFromShort(d, 0);
      assert d[0..] == d;
    } else {
      var a, t := d[..|d| - 3], d[|d| - 3..];
      assert AllDigits(a) by {
        forall k | 0 <= k < |a| ensures IsDigit(a[k]) { assert a[k] == d[k]; }
      }
      assert AllDigits(t) by {
        forall k | 0 <= k < |t| ensures IsDigit(t[k]) { assert t[k] == d[|d| - 3 + k]; }
      }
      GroupedIsFixed(a);
      FormatNumberSplit(GroupDigits(a), ',', t);
      FormatFromShort(t, 0);
      assert t[0..] == t;
    }
  }

  // ---------------------------------------------------------------------------
  // handleInputChange: sanitising, the dot check, display and forwarded value
  // ---------------------------------------------------------------------------

  /** A character kept by `value.replace(/[^0-9.]/g, '')`. */
  predicate Kept(c: char) {
    IsDigit(c) || c == '.'
  }

  /** `value.replace(/[^0-9.]/g, '')`. */
  function Sanitize(s: string): (r: string)
    ensures forall k :: 0 <= k < |r| ==> Kept(r[k])
    ensures |r| <= |s|
  {
    if s == [] then ""
    else Sanitize(s[..|s| - 1]) + (if Kept(s[|s| - 1]) then [s[|s| - 1]] else "")
  }

  /** `(value.match(/\./g) || []).length`. */
  function DotCount(s: string): nat {
    if s == [] then 0 else DotCount(s[..|s| - 1]) + (if s[|s| - 1] == '.' then 1 else 0)
  }

  lemma {:induction false} SanitizeAppend(a: string, b: string)
    ensures Sanitize(a + b) == Sanitize(a) + Sanitize(b)
    decreases |b|
  {
    if b == [] {
      assert a + b == a;
    } else {
      assert (a + b)[..|a + b| - 1] == a + b[..|b| - 1];
      SanitizeAppend(a, b[..|b| - 1]);
    }
  }

  lemma SanitizeChar(c: char)
    ensures Sanitize([c]) == if Kept(c) then [c] else ""
  {
    assert [c][..0] == "";
  }

  /** Sanitising changes nothing in text made of digits and dots only. */
  lemma {:induction false} SanitizeFixesKept(s: string)
    requires forall k :: 0 <= k < |s| ==> Kept(s[k])
    ensures Sanitize(s) == s
    decreases |s|
  {
    if s != [] {
      SanitizeFixesKept(s[..|s| - 1]);
    }
  }

  lemma {:induction false} SanitizeRemoveCommas(s: string)
    ensures Sanitize(RemoveCommas(s)) == Sanitize(s)
    decreases |s|
  {
    if s != [] {
      var c, rest := s[0], s[1..];
      var head := if c == ',' then "" else [c];
      assert RemoveCommas(s) == head + RemoveCommas(rest);
      SanitizeRemoveCommas(rest);
      SanitizeAppend(head, RemoveCommas(rest));
      assert s == [c] + rest;
      SanitizeAppend([c], rest);
      SanitizeChar(c);
      assert Sanitize("") == "";
    }
  }

  /** The commas `FormatNumber` inserts are exactly what sanitising strips again. */
  lemma SanitizeFormatNumber(s: string)
    ensures Sanitize(FormatNumber(s)) == Sanitize(s)
  {
    SanitizeRemoveCommas(FormatNumber(s));
    FormatNumberRemoveCommas(s);
    SanitizeRemoveCommas(s);
  }

  /** The event passed to the `onChange` prop. */
  datatype Forwarded =
    | OriginalEvent             // the keystroke's own event, whose value is the raw text
    | WithValue(value: string)  // a copy of the event whose target value is replaced

  /** What one keystroke does: nothing at all, or a new display text and an event for `onChange`. */
  datatype ChangeEffect = Ignored | Accepted(display: string, forwarded: Forwarded)

  /** The caller-supplied `unformatNumber`, or the identity when it is absent. */
  function Unformat(unformat: Option<string -> string>, s: string): string {
    match unformat
    case Some(f) => f(s)
    case None => s
  }

  /** The effect of `handleInputChange` on a keystroke that leaves `value` in the field. */
  function OnInputChange(formatted: bool, unformat: Option<string -> string>, value: string): (r: ChangeEffect)
    ensures r.Ignored? <==> DotCount(Sanitize(value)) > 1
    ensures r.Accepted? && !formatted ==> r.display == Sanitize(value) && r.forwarded == OriginalEvent
    ensures r.Accepted? && formatted ==> r.forwarded.WithValue? && r.display == FormatNumber(r.forwarded.value)
    ensures r.Accepted? && formatted ==> r.forwarded.value == Unformat(unformat, Sanitize(value))
    ensures r.Accepted? && formatted && unformat.None? ==>
      r.forwarded.value == Sanitize(value) && RemoveCommas(r.display) == r.forwarded.value
  {
    var clean := Sanitize(value);
    if DotCount(clean) > 1 then Ignored
    else if formatted then
      var unformatted := Unformat(unformat, clean);
      assert ',' !in clean;
      FormatNumberRoundTrip(clean);
      Accepted(FormatNumber(unformatted), WithValue(unformatted))
    else Accepted(clean, OriginalEvent)
  }

  /** A digit string has no `.`. */
  lemma {:induction false} DotCountDigits(s: string)
    requires AllDigits(s)
    ensures DotCount(s) == 0
  {
    if s != [] {
      var init := s[..|s| - 1];
      assert AllDigits(init) by {
        forall k | 0 <= k < |init| ensures IsDigit(init[k]) { assert init[k] == s[k]; }
      }
      DotCountDigits(init);
      assert IsDigit(s[|s| - 1]);
    }
  }

  /** Typing digits in formatted mode without `unformatNumber` shows them grouped and forwards them as typed. */
  lemma OnDigitsTyped(value: string)
    requires AllDigits(value)
    ensures OnInputChange(true, None, value) == Accepted(GroupDigits(value), WithValue(value))
  {
    assert forall k :: 0 <= k < |value| ==> Kept(value[k]) by {
      forall k | 0 <= k < |value| ensures Kept(value[k]) { assert IsDigit(value[k]); }
    }
    SanitizeFixesKept(value);
    DotCountDigits(value);
    FormatNumberGroupsDigits(value);
  }

  /** How a caller's unformatting must behave for the display text to be a fixed point: it strips commas only. */
  ghost predicate StripsCommas(unformat: Option<string -> string>) {
    unformat.None? || forall x :: unformat.value(x) == RemoveCommas(x)
  }

  /**
   * In formatted mode the text shown is stable: feeding the display text back
   * through the handler (as the next keystroke that changes nothing would) gives
   * the same display and forwards the same value.
   */
  lemma DisplayIsStable(unformat: Option<string -> string>, value: string)
    requires StripsCommas(unformat)
    requires OnInputChange(true, unformat, value).Accepted?
    ensures OnInputChange(true, unformat, OnInputChange(true, unformat, value).display) == OnInputChange(true, unformat, value)
  {
    var clean := Sanitize(value);
    assert ',' !in clean;
    RemoveCommasNoComma(clean);
    var display := FormatNumber(clean);
    assert OnInputChange(true, unformat, value) == Accepted(display, WithValue(clean));
    SanitizeFormatNumber(clean);
    SanitizeFixesKept(clean);
  }

  /** Once formatted, a number of four or more digits is never shown as the text handed to the form. */
  lemma {:induction false} GroupedDigitsDiffer(d: string)
    requires AllDigits(d) && |d| > 3
    ensures FormatNumber(d) != d
  {
    FormatNumberGroupsDigits(d);
    var g := GroupDigits(d);
    assert g == GroupDigits(d[..|d| - 3]) + "," + d[|d| - 3..];
    assert ',' in g by { assert g[|g| - 4] == ','; }
    assert ',' !in d by { forall k | 0 <= k < |d| ensures d[k] != ',' { assert IsDigit(d[k]); } }
  }

  /** A number of at most three digits is shown exactly as it is handed to the form. */
  lemma ShortDigitsUnchanged(d: string)
    requires AllDigits(d) && |d| <= 3
    ensures FormatNumber(d) == d
  {
    FormatFromShort(d, 0);
    assert d[0..] == d;
  }

  /** A decimal number whose whole part has four or more digits is never shown as the text handed to the form. */
  lemma {:induction false} WholePartDiffers(whole: string, fraction: string)
    requires AllDigits(whole) && |whole| > 3 && AllDigits(fraction)
    ensures FormatNumber(whole + "." + fraction) != whole + "." + fraction
  {
    FormatNumberDecimal(whole, fraction);
    var g := GroupDigits(whole);
    assert g == GroupDigits(whole[..|whole| - 3]) + "," + whole[|whole| - 3..];
    var shown := g + "." + GroupDigits(fraction);
    assert shown[|g| - 4] == ',';
    var typed := whole + "." + fraction;
    assert ',' !in typed by {
      forall k | 0 <= k < |typed| ensures typed[k] != ',' {
        if k < |whole| { assert IsDigit(whole[k]); }
        else if k > |whole| { assert typed[k] == fraction[k - |whole| - 1]; assert IsDigit(fraction[k - |whole| - 1]); }
      }
    }
  }

  // ---------------------------------------------------------------------------
  // setValueAs and the default-value effect
  // ---------------------------------------------------------------------------

  /** What the `setValueAs` option registered with the form does to the field's text. */
  datatype Coercion =
    | NoCoercion            // plain mode registers no `setValueAs`
    | KeepText              // formatted mode without `unformatNumber` keeps the text
    | ToNumber(text: string)  // `Number(...)` applied to this text; the conversion itself is not modelled

  function SetValueAs(formatted: bool, unformat: Option<string -> string>, fieldText: string): (c: Coercion)
    ensures c.NoCoercion? <==> !formatted
    ensures c.ToNumber? <==> formatted && unformat.Some?
    ensures c.ToNumber? ==> c.text == Unformat(unformat, fieldText)
  {
    if !formatted then NoCoercion
    else match unformat
      case Some(f) => ToNumber(f(fieldText))
      case None => KeepText
  }

  /**
   * With a comma-stripping `unformatNumber`, the number the form stores from the
   * display text is parsed from the very text the handler forwarded to `onChange`.
   */
  lemma FormValueMatchesForwarded(unformat: Option<string -> string>, value: string)
    requires unformat.Some? && StripsCommas(unformat)
    requires OnInputChange(true, unformat, value).Accepted?
    ensures var r := OnInputChange(true, unformat, value);
      SetValueAs(true, unformat, r.display) == ToNumber(r.forwarded.value)
  {
    var clean := Sanitize(value);
    assert ',' !in clean;
    RemoveCommasNoComma(clean);
    FormatNumberRoundTrip(clean);
  }

  /** The `defaultValue` prop and the `inputValue` state: a number, a string or a list of strings. */
  datatype FieldValue = NumberValue(n: int) | StringValue(s: string) | StringList(items: seq<string>)

  /** JavaScript `String(value)`; numbers are modelled as integers. */
  function JsString(v: FieldValue): string {
    match v
    case NumberValue(n) => IntToString(n)
    case StringValue(s) => s
    case StringList(items) => Join(items, ",")
  }

  /** What the default-value effect leaves in `inputValue` for a given default. */
  function InitialDisplay(formatted: bool, unformat: Option<string -> string>, default: FieldValue): (r: FieldValue)
    ensures !formatted ==> r == default
    ensures formatted ==> r.StringValue? && RemoveCommas(r.s) == RemoveCommas(Unformat(unformat, JsString(default)))
  {
    if formatted then
      var unformatted := Unformat(unformat, JsString(default));
      FormatNumberRemoveCommas(unformatted);
      StringValue(FormatNumber(unformatted))
    else default
  }

  /** A numeric default in formatted mode is shown grouped by threes, e.g. 1200000 as "1,200,000". */
  lemma NumberDefaultGrouped(n: nat)
    ensures InitialDisplay(true, None, NumberValue(n)) == StringValue(GroupDigits(NatToString(n)))
  {
    FormatNumberGroupsDigits(NatToString(n));
  }

  /** The component's state: the text shown in the field, and its fixed props. */
  class FormatNumberInput {
    const isFormattedNumber: bool
    const unformatNumber: Option<string -> string>
    const hasOnChange: bool   // whether the `onChange` prop is given
    var inputValue: Option<FieldValue>   // `undefined` until set

    constructor (isFormattedNumber: bool, unformatNumber: Option<string -> string>, hasOnChange: bool)
      ensures this.isFormattedNumber == isFormattedNumber
      ensures this.unformatNumber == unformatNumber
      ensures this.hasOnChange == hasOnChange
      ensures inputValue == None
    {
      this.isFormattedNumber := isFormattedNumber;
      this.unformatNumber := unformatNumber;
      this.hasOnChange := hasOnChange;
      inputValue := None;
    }

    /** The `useEffect` run when `defaultValue` (or a formatting prop) changes. */
    method ApplyDefaultValue(defaultValue: Option<FieldValue>)
      modifies this
      ensures defaultValue.None? ==> inputValue == old(inputValue)
      ensures defaultValue.Some? ==> inputValue == Some(InitialDisplay(isFormattedNumber, unformatNumber, defaultValue.value))
    {
      if defaultValue.Some? {
        inputValue := Some(defaultValue.value);
        if isFormattedNumber {
          var unformattedValue := Unformat(unformatNumber, JsString(defaultValue.value));
          var formattedValue := FormatNumber(unformattedValue);
          inputValue := Some(StringValue(formattedValue));
        }
      }
    }

    /**
     * `handleInputChange`: returns the event handed to `onChange`, if it is
     * called at all, and updates the display state.
     */
    method HandleInputChange(value: string) returns (call: Option<Forwarded>)
      modifies this
      ensures OnInputChange(isFormattedNumber, unformatNumber, value).Ignored? ==>
        inputValue == old(inputValue) && call == None
      ensures OnInputChange(isFormattedNumber, unformatNumber, value).Accepted? ==>
        && inputValue == Some(StringValue(OnInputChange(isFormattedNumber, unformatNumber, value).display))
        && call == (if hasOnChange then Some(OnInputChange(isFormattedNumber, unformatNumber, value).forwarded) else None)
    {
      var formattedValue := Sanitize(value);
      var dotCount := DotCount(formattedValue);
      if dotCount > 1 {
        return None;
      }
      if isFormattedNumber {
        var unformattedValue := Unformat(unformatNumber, formattedValue);
        var formattedInput := FormatNumber(unformattedValue);
        inputValue := Some(StringValue(formattedInput));
        call := if hasOnChange then Some(WithValue(unformattedValue)) else None;
      } else {
        inputValue := Some(StringValue(formattedValue));
        call := if hasOnChange then Some(OriginalEvent) else None;
      }
    }
  }
}
