/**
 * The pure helpers of the animated counter
 * (src/components/CountUp/CountUp.jsx): how many decimals to show, where
 * the count starts and ends, how the shown text is cut into per-character
 * digits, and how the grouping separator is substituted into the
 * formatted number.
 *
 * Numbers enter as the strings `Number.prototype.toString` and
 * `Intl.NumberFormat` make of them; those conversions are not modelled.
 */
module CountUp {
  import opened Wrappers
  import opened JsText

  // ---------------------------------------------------------------------
  // parseInt(s, 10)
  // ---------------------------------------------------------------------

  predicate IsDigit(c: char) {
    '0' <= c <= '9'
  }

  predicate AllDigits(s: string) {
    forall i :: 0 <= i < |s| ==> IsDigit(s[i])
  }

  /** The leading code units `parseInt` skips: the same set as `\s`. */
  function TrimStart(s: string): (t: string)
    ensures |t| <= |s| && t == s[|s| - |t|..]
    ensures forall i :: 0 <= i < |s| - |t| ==> IsWhiteSpaceCode(s[i] as int)
    ensures t == [] || !IsWhiteSpaceCode(t[0] as int)
  {
    if s != [] && IsWhiteSpaceCode(s[0] as int) then TrimStart(s[1..]) else s
  }

  /** The length of the longest prefix of decimal digits. */
  function DigitPrefixLen(s: string): (n: nat)
    ensures n <= |s| && AllDigits(s[..n])
    ensures n < |s| ==> !IsDigit(s[n])
  {
    if s != [] && IsDigit(s[0]) then
      assert s[1..][..DigitPrefixLen(s[1..])] == s[1..1 + DigitPrefixLen(s[1..])];
      1 + DigitPrefixLen(s[1..])
    else 0
  }

  /** The value of a string of decimal digits, most significant first. */
  function DigitsValue(ds: string): (v: nat)
    requires AllDigits(ds)
    ensures ds == [] ==> v == 0
  {
    if ds == [] then 0 else DigitsValue(ds[..|ds| - 1]) * 10 + (ds[|ds| - 1] as int - '0' as int)
  }

  /** A digit string is worth 0 exactly when every digit is `0`. */
  lemma {:induction false} DigitsValueZero(ds: string)
    requires AllDigits(ds)
    ensures DigitsValue(ds) == 0 <==> AllZeros(ds)
    decreases |ds|
  {
    if ds != [] {
      var init := ds[..|ds| - 1];
      DigitsValueZero(init);
      assert forall i :: 0 <= i < |init| ==> init[i] == ds[i];
    }
  }

  /** The string after the optional sign `parseInt` accepts. */
  function Unsigned(t: string): (u: string)
    ensures |u| <= |t| && u == t[|t| - |u|..]
    ensures |u| < |t| ==> |u| == |t| - 1 && (t[0] == '-' || t[0] == '+')
  {
    if t != [] && (t[0] == '-' || t[0] == '+') then t[1..] else t
  }

  /** The digits `parseInt` reads: after leading whitespace and a sign, up to the first non-digit. */
  function DigitRun(s: string): (ds: string)
    ensures AllDigits(ds) && |ds| <= |TrimStart(s)|
    ensures var u := Unsigned(TrimStart(s));
      && |ds| <= |u| && ds == u[..|ds|]
      && (|ds| < |u| ==> !IsDigit(u[|ds|]))
  {
    var u := Unsigned(TrimStart(s));
    u[..DigitPrefixLen(u)]
  }

  predicate AllZeros(s: string) {
    forall i :: 0 <= i < |s| ==> s[i] == '0'
  }

  /**
   * `parseInt(s, 10)`: `None` stands for `NaN`. A minus sign in front of
   * zero digits gives `-0`, which `!== 0` treats as `0`, so it is `Some(0)`
   * here.
   */
  function ParseIntDecimal(s: string): (r: Option<int>)
    ensures r.None? <==> DigitRun(s) == []
    ensures r.Some? ==> (r.value == 0 <==> AllZeros(DigitRun(s)))
    ensures r.Some? ==> TrimStart(s) != []
    ensures r.Some? && TrimStart(s)[0] == '-' ==> r.value == -(DigitsValue(DigitRun(s)) as int)
    ensures r.Some? && TrimStart(s)[0] != '-' ==> r.value == DigitsValue(DigitRun(s))
  {
    var t := TrimStart(s);
    var ds := DigitRun(s);
    DigitsValueZero(ds);
    var v: int := DigitsValue(ds);
    if ds == [] then None
    else
      assert |t| > 0;
      Some(if t[0] == '-' then -v else v)
  }

  /** A signed digit string reads as its value, negated after `-`. */
  lemma ParseIntOfSigned(ds: string)
    requires ds != [] && AllDigits(ds)
    ensures ParseIntDecimal(ds) == Some(DigitsValue(ds) as int)
    ensures ParseIntDecimal("-" + ds) == Some(-(DigitsValue(ds) as int))
    ensures ParseIntDecimal("+" + ds) == Some(DigitsValue(ds) as int)
  {
    DigitRunOfDigits(ds);
    DigitPrefixOfDigits(ds);
    SignedDigitRun('-', ds);
    SignedDigitRun('+', ds);
  }

  lemma SignedDigitRun(sign: char, ds: string)
    requires (sign == '-' || sign == '+') && AllDigits(ds)
    ensures TrimStart([sign] + ds) == [sign] + ds && DigitRun([sign] + ds) == ds
  {
    var s := [sign] + ds;
    assert !IsWhiteSpaceCode(s[0] as int);
    assert Unsigned(s) == ds;
    DigitPrefixOfDigits(ds);
  }

  /** A string of digits is read whole by `parseInt`. */
  lemma DigitRunOfDigits(s: string)
    requires s != [] && AllDigits(s)
    ensures DigitRun(s) == s
  {
    assert !IsWhiteSpaceCode(s[0] as int);
    assert TrimStart(s) == s;
    assert Unsigned(s) == s;
    DigitPrefixOfDigits(s);
  }

  // ---------------------------------------------------------------------
  // getDecimalPlaces and maxDecimals
  // ---------------------------------------------------------------------

  /** The index of the first `c` in `s`, or `|s|` when there is none. */
  function IndexOf(s: string, c: char): (i: nat)
    ensures i <= |s|
    ensures forall j :: 0 <= j < i ==> s[j] != c
    ensures i < |s| ==> s[i] == c
  {
    if s == [] || s[0] == c then 0 else 1 + IndexOf(s[1..], c)
  }

  /** `str.split(".")[1]`: what lies between the first `.` and the next. */
  function FractionPart(str: string): (f: string)
    requires '.' in str
    ensures '.' !in f
  {
    var rest := str[IndexOf(str, '.') + 1..];
    rest[..IndexOf(rest, '.')]
  }

  /**
   * `getDecimalPlaces(num)` on `num.toString()`: the length of the
   * fraction part, unless `parseInt` reads zero from it.
   */
  function DecimalPlaces(str: string): (d: nat)
    ensures '.' !in str ==> d == 0
    ensures '.' in str ==> d == 0 || d == |FractionPart(str)|
    ensures d <= |str|
  {
    if '.' in str && ParseIntDecimal(FractionPart(str)) != Some(0) then |FractionPart(str)| else 0
  }

  /** The fraction of `ip.fd` is `fd`, when `ip` has no dot. */
  lemma FractionOfDecimal(ip: string, fd: string)
    requires '.' !in ip && '.' !in fd
    ensures '.' in ip + "." + fd && FractionPart(ip + "." + fd) == fd
  {
    var str := ip + "." + fd;
    assert str[|ip|] == '.';
    assert IndexOf(str, '.') == |ip|;
    assert str[|ip| + 1..] == fd;
  }

  /**
   * A decimal string whose fraction has a nonzero digit shows every digit
   * of that fraction, leading zeros included.
   */
  lemma DecimalPlacesNonzeroFraction(ip: string, fd: string)
    requires '.' !in ip && fd != [] && AllDigits(fd) && !AllZeros(fd)
    ensures DecimalPlaces(ip + "." + fd) == |fd|
  {
    assert '.' !in fd by {
      assert forall i :: 0 <= i < |fd| ==> fd[i] != '.';
    }
    FractionOfDecimal(ip, fd);
    DigitRunOfDigits(fd);
  }

  /** A fraction made of zeros only shows no decimals. */
  lemma DecimalPlacesZeroFraction(ip: string, fd: string)
    requires '.' !in ip && fd != [] && AllZeros(fd)
    ensures DecimalPlaces(ip + "." + fd) == 0
  {
    assert AllDigits(fd) && '.' !in fd by {
      assert forall i :: 0 <= i < |fd| ==> IsDigit(fd[i]) && fd[i] != '.';
    }
    FractionOfDecimal(ip, fd);
    DigitRunOfDigits(fd);
  }

  lemma {:induction false} DigitPrefixOfDigits(s: string)
    requires AllDigits(s)
    ensures DigitPrefixLen(s) == |s|
    decreases |s|
  {
    if s != [] {
      DigitPrefixOfDigits(s[1..]);
    }
  }

  /** `Math.max(getDecimalPlaces(from), getDecimalPlaces(to))`. */
  function MaxDecimals(fromText: string, toText: string): (m: nat)
    ensures m >= DecimalPlaces(fromText) && m >= DecimalPlaces(toText)
    ensures m == DecimalPlaces(fromText) || m == DecimalPlaces(toText)
  {
    var a := DecimalPlaces(fromText);
    var b := DecimalPlaces(toText);
    if a >= b then a else b
  }

  /** The `Intl.NumberFormat` options of the display update. */
  datatype FormatOptions = FormatOptions(useGrouping: bool, minimumFractionDigits: nat, maximumFractionDigits: nat)

  function NumberFormatOptions(maxDecimals: nat, separator: string): (o: FormatOptions)
    ensures o.useGrouping <==> separator != ""
    ensures o.minimumFractionDigits == o.maximumFractionDigits == maxDecimals
  {
    var digits := if maxDecimals > 0 then maxDecimals else 0;
    FormatOptions(separator != "", digits, digits)
  }

  // ---------------------------------------------------------------------
  // Start and target
  // ---------------------------------------------------------------------

  /** `direction === "down" ? to : from`: where the count starts. */
  function StartValue<T>(direction: string, from: T, to: T): T {
    if direction == "down" then to else from
  }

  /** `direction === "down" ? from : to`: where the count goes. */
  function TargetValue<T>(direction: string, from: T, to: T): T {
    if direction == "down" then from else to
  }

  /**
   * Counting down swaps the ends, any other direction counts up; either
   * way the start and the target are the two given values.
   */
  lemma StartAndTarget<T>(direction: string, from: T, to: T)
    ensures direction == "down" ==> StartValue(direction, from, to) == to && TargetValue(direction, from, to) == from
    ensures direction != "down" ==> StartValue(direction, from, to) == from && TargetValue(direction, from, to) == to
    ensures multiset{StartValue(direction, from, to), TargetValue(direction, from, to)} == multiset{from, to}
  {
  }

  // ---------------------------------------------------------------------
  // Digits
  // ---------------------------------------------------------------------

  /** `s.split("")`: one single-character string per character. */
  function SplitChars(s: string): (ds: seq<string>)
    ensures |ds| == |s|
    ensures forall i :: 0 <= i < |s| ==> ds[i] == [s[i]]
  {
    seq(|s|, i requires 0 <= i < |s| => [s[i]])
  }

  /**
   * `ds.join("")` over strings of characters. JsText.Concat is the same join
   * over UTF-16 code-unit strings; the counter's digits are characters, so
   * this one is kept separate rather than converted.
   */
  function Join(ds: seq<string>): string {
    if ds == [] then [] else ds[0] + Join(ds[1..])
  }

  /** Joining the digits gives the text back. */
  lemma {:induction false} JoinSplitChars(s: string)
    ensures Join(SplitChars(s)) == s
    decreases |s|
  {
    if s != [] {
      assert SplitChars(s)[1..] == SplitChars(s[1..]);
      JoinSplitChars(s[1..]);
    }
  }

  /** The text shown and its digits. */
  datatype Display = Display(displayText: string, digits: seq<string>)

  /**
   * The effect run when `from`, `to` or `direction` change: show
   * `String(start)` and cut it into digits.
   */
  function InitialDisplay(startText: string): (d: Display)
    ensures d.displayText == startText && Join(d.digits) == startText
    ensures |d.digits| == |startText| && forall i :: 0 <= i < |d.digits| ==> |d.digits[i]| == 1
  {
    JoinSplitChars(startText);
    Display(startText, SplitChars(startText))
  }

  // ---------------------------------------------------------------------
  // Separator substitution
  // ---------------------------------------------------------------------

  /**
   * The replacement string of `String.prototype.replace` for a one-unit
   * match at `pos` of `s`, with its `$` patterns: `$$` is a dollar sign,
   * `$&` the match, `` $` `` the text before it and `$'` the text after
   * it. With no capture groups every other `$` sequence stays as written.
   */
  function Substitution(rep: string, s: string, pos: nat): string
    requires pos < |s|
  {
    if rep == [] then []
    else if rep[0] == '$' && |rep| >= 2 && rep[1] == '$' then "$" + Substitution(rep[2..], s, pos)
    else if rep[0] == '$' && |rep| >= 2 && rep[1] == '&' then s[pos..pos + 1] + Substitution(rep[2..], s, pos)
    else if rep[0] == '$' && |rep| >= 2 && rep[1] == '`' then s[..pos] + Substitution(rep[2..], s, pos)
    else if rep[0] == '$' && |rep| >= 2 && rep[1] == '\'' then s[pos + 1..] + Substitution(rep[2..], s, pos)
    else [rep[0]] + Substitution(rep[1..], s, pos)
  }

  /** A replacement without `$` is inserted as it is. */
  lemma {:induction false} SubstitutionOfPlain(rep: string, s: string, pos: nat)
    requires pos < |s| && '$' !in rep
    ensures Substitution(rep, s, pos) == rep
    decreases |rep|
  {
    if rep != [] {
      assert '$' !in rep[1..];
      SubstitutionOfPlain(rep[1..], s, pos);
    }
  }

  /** `s.replace(/,/g, sep)`, from index `i` on. */
  function ReplaceCommasFrom(s: string, i: nat, sep: string): string
    requires i <= |s|
    decreases |s| - i
  {
    if i == |s| then []
    else if s[i] == ',' then Substitution(sep, s, i) + ReplaceCommasFrom(s, i + 1, sep)
    else [s[i]] + ReplaceCommasFrom(s, i + 1, sep)
  }

  /** `formattedNumber.replace(/,/g, separator)`, as written. */
  function ReplaceCommas(s: string, sep: string): string {
    ReplaceCommasFrom(s, 0, sep)
  }

  /** Every comma replaced by `sep` taken literally; nothing else changes. */
  function ReplaceCommasLiterally(s: string, sep: string): string {
    if s == [] then []
    else (if s[0] == ',' then sep else [s[0]]) + ReplaceCommasLiterally(s[1..], sep)
  }

  /** Without `$` in the separator the two replacements agree. */
  lemma {:induction false} ReplaceCommasOfPlain(s: string, i: nat, sep: string)
    requires i <= |s| && '$' !in sep
    ensures ReplaceCommasFrom(s, i, sep) == ReplaceCommasLiterally(s[i..], sep)
    decreases |s| - i
  {
    if i < |s| {
      assert s[i..][0] == s[i] && s[i..][1..] == s[i + 1..];
      if s[i] == ',' {
        SubstitutionOfPlain(sep, s, i);
      }
      ReplaceCommasOfPlain(s, i + 1, sep);
    }
  }

  /**
   * A separator that contains `$&` is read as a pattern: on "1,000" with
   * separator "$&" the text stays "1,000" instead of becoming "1$&000".
   */
  lemma DollarSeparatorIsAPattern()
    ensures ReplaceCommas("1,000", "$&") == "1,000"
    ensures ReplaceCommasLiterally("1,000", "$&") == "1$&000"
  {
    var s := "1,000";
    assert Substitution("$&", s, 1) == "," by {
      assert Substitution([], s, 1) == [];
    }
    assert ReplaceCommasFrom(s, 2, "$&") == "000";
  }

  /** With no comma in the separator, no comma is left. */
  lemma {:induction false} LiteralReplaceRemovesCommas(s: string, sep: string)
    requires ',' !in sep
    ensures ',' !in ReplaceCommasLiterally(s, sep)
    decreases |s|
  {
    if s != [] {
      LiteralReplaceRemovesCommas(s[1..], sep);
    }
  }

  /**
   * A one-character separator replaces each comma in place: same length,
   * every other character where it was.
   */
  lemma {:induction false} LiteralReplaceByChar(s: string, c: char)
    ensures var r := ReplaceCommasLiterally(s, [c]);
      && |r| == |s|
      && forall i :: 0 <= i < |s| ==> r[i] == (if s[i] == ',' then c else s[i])
    decreases |s|
  {
    if s != [] {
      LiteralReplaceByChar(s[1..], c);
    }
  }

  /** Replacing a comma by a comma changes nothing. */
  lemma {:induction false} LiteralReplaceByComma(s: string)
    ensures ReplaceCommasLiterally(s, ",") == s
    decreases |s|
  {
    if s != [] {
      LiteralReplaceByComma(s[1..]);
    }
  }

  /**
   * `separator ? formattedNumber.replace(/,/g, separator) : formattedNumber`,
   * with the separator taken literally.
   */
  function SeparatedText(formatted: string, separator: string): (r: string)
    ensures separator == "" ==> r == formatted
    ensures separator != "" && ',' !in separator ==> ',' !in r
    ensures separator != "" && '$' !in separator ==> r == ReplaceCommas(formatted, separator)
  {
    if separator == "" then formatted
    else
      LiteralReplaceFacts(formatted, separator);
      ReplaceCommasLiterally(formatted, separator)
  }

  lemma LiteralReplaceFacts(s: string, sep: string)
    ensures ',' !in sep ==> ',' !in ReplaceCommasLiterally(s, sep)
    ensures '$' !in sep ==> ReplaceCommasLiterally(s, sep) == ReplaceCommas(s, sep)
  {
    if ',' !in sep {
      LiteralReplaceRemovesCommas(s, sep);
    }
    if '$' !in sep {
      ReplaceCommasOfPlain(s, 0, sep);
      assert s[0..] == s;
    }
  }

  /**
   * The display update on each spring value, as written:
   * `separator ? formattedNumber.replace(/,/g, separator) : formattedNumber`,
   * and its digits when `cubic` is set. For a separator without `$` this is
   * the literal substitution; one with `$` patterns is expanded.
   */
  function UpdateDisplay(d: Display, formatted: string, separator: string, cubic: bool): (r: Display)
    ensures separator == "" ==> r.displayText == formatted
    ensures separator != "" ==> r.displayText == ReplaceCommas(formatted, separator)
    ensures '$' !in separator ==> r.displayText == SeparatedText(formatted, separator)
    ensures separator != "" && ',' !in separator && '$' !in separator ==> ',' !in r.displayText
    ensures cubic ==> Join(r.digits) == r.displayText && |r.digits| == |r.displayText|
    ensures !cubic ==> r.digits == d.digits
  {
    var text := if separator == "" then formatted else ReplaceCommas(formatted, separator);
    JoinSplitChars(text);
    Display(text, if cubic then SplitChars(text) else d.digits)
  }
}
