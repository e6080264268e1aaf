/**
 * String helpers with JavaScript semantics: `String.prototype.split` on a
 * one-character separator, `Array.prototype.join`, `Number.prototype.toString`
 * on integers and `parseInt(s, 10)`.
 */
module Text {
  import opened Wrappers

  /** `fields.join([sep])`. */
  function Join(fields: seq<string>, sep: char): (s: string)
    decreases |fields|
  {
    if |fields| == 0 then ""
    else if |fields| == 1 then fields[0]
    else fields[0] + [sep] + Join(fields[1..], sep)
  }

  /**
   * `s.split(sep)`: the maximal runs of non-separator characters, including
   * the empty runs before, between and after separators ("".split(" ") is [""]).
   */
  function Split(s: string, sep: char): (fields: seq<string>)
    ensures |fields| >= 1
    ensures forall i :: 0 <= i < |fields| ==> sep !in fields[i]
    ensures Join(fields, sep) == s
    decreases |s|
  {
    if |s| == 0 then [""]
    else
      var rest := Split(s[1..], sep);
      if s[0] == sep then
        assert s == [sep] + s[1..];
        [""] + rest
      else
        assert s == [s[0]] + s[1..];
        [[s[0]] + rest[0]] + rest[1..]
  }

  /** A string without the separator is a single field. */
  lemma {:induction false} SplitWithoutSep(s: string, sep: char)
    requires sep !in s
    ensures Split(s, sep) == [s]
    decreases |s|
  {
    if |s| > 0 {
      SplitWithoutSep(s[1..], sep);
    }
  }

  /** A first field without the separator is split off unchanged. */
  lemma {:induction false} SplitFirstField(a: string, sep: char, b: string)
    requires sep !in a
    ensures Split(a + [sep] + b, sep) == [a] + Split(b, sep)
    decreases |a|
  {
    var s := a + [sep] + b;
    if |a| == 0 {
      assert s[1..] == b;
    } else {
      assert s[1..] == a[1..] + [sep] + b;
      SplitFirstField(a[1..], sep, b);
      assert [a[0]] + a[1..] == a;
    }
  }

  /** Splitting undoes joining when no field holds the separator. */
  lemma {:induction false} SplitJoin(fields: seq<string>, sep: char)
    requires |fields| >= 1
    requires forall i :: 0 <= i < |fields| ==> sep !in fields[i]
    ensures Split(Join(fields, sep), sep) == fields
    decreases |fields|
  {
    if |fields| == 1 {
      SplitWithoutSep(fields[0], sep);
    } else {
      SplitFirstField(fields[0], sep, Join(fields[1..], sep));
      SplitJoin(fields[1..], sep);
      assert [fields[0]] + fields[1..] == fields;
    }
  }

  // ---------------------------------------------------------------------
  // Decimal integers

  predicate IsDigit(c: char) {
    '0' <= c <= '9'
  }

  predicate AllDigits(s: string) {
    forall i :: 0 <= i < |s| ==> IsDigit(s[i])
  }

  function DigitChar(d: nat): (c: char)
    requires d < 10
    ensures IsDigit(c)
  {
    (48 + d) as char
  }

  function DigitValue(c: char): (d: nat)
    requires IsDigit(c)
    ensures d < 10
  {
    c as int - 48
  }

  /** The decimal digits of `n`, most significant first, without leading zeros. */
  function NatToDecimal(n: nat): (s: string)
    ensures |s| >= 1 && AllDigits(s)
    decreases n
  {
    if n < 10 then [DigitChar(n)] else NatToDecimal(n / 10) + [DigitChar(n % 10)]
  }

  /** The number an all-digit string denotes. */
  function DecimalValue(s: string): (n: nat)
    requires AllDigits(s)
    decreases |s|
  {
    if |s| == 0 then 0 else DecimalValue(s[..|s| - 1]) * 10 + DigitValue(s[|s| - 1])
  }

  lemma {:induction false} DecimalRoundTrip(n: nat)
    ensures DecimalValue(NatToDecimal(n)) == n
    decreases n
  {
    var s := NatToDecimal(n);
    if n >= 10 {
      DecimalRoundTrip(n / 10);
      assert s[..|s| - 1] == NatToDecimal(n / 10);
    }
  }

  /** `String(n)` for an integer `n`. */
  function IntToString(n: int): (s: string)
    ensures |s| >= 1 && ' ' !in s && '.' !in s
  {
    if n < 0 then "-" + NatToDecimal(-n) else NatToDecimal(n)
  }

  /** A strict decimal reader: an optional '-' and at least one digit, nothing else. */
  function ParseDecimal(s: string): (r: Option<int>)
    ensures r.Some? ==> |s| >= 1
  {
    if |s| >= 1 && s[0] == '-' then
      (if |s| >= 2 && AllDigits(s[1..]) then Some(-(DecimalValue(s[1..]) as int)) else None)
    else if |s| >= 1 && AllDigits(s) then Some(DecimalValue(s))
    else None
  }

  lemma ParseDecimalIntToString(n: int)
    ensures ParseDecimal(IntToString(n)) == Some(n)
  {
    var s := IntToString(n);
    if n < 0 {
      assert s[1..] == NatToDecimal(-n);
      DecimalRoundTrip(-n);
    } else {
      DecimalRoundTrip(n);
    }
  }

  /** The longest prefix of `s` made of digits. */
  function DigitPrefix(s: string): (p: string)
    ensures |p| <= |s| && p == s[..|p|] && AllDigits(p)
    ensures |p| < |s| ==> !IsDigit(s[|p|])
    ensures AllDigits(s) ==> p == s
    decreases |s|
  {
    if |s| >= 1 && IsDigit(s[0]) then [s[0]] + DigitPrefix(s[1..]) else ""
  }

  /**
   * `parseInt(s, 10)`: an optional sign, then the longest run of digits;
   * None stands for NaN (no digit at all). Leading white space is not skipped.
   */
  function ParseInt(s: string): (r: Option<int>)
    ensures |s| >= 1 && AllDigits(s) ==> r == Some(DecimalValue(s))
    ensures |s| >= 1 && IsDigit(s[0]) ==> r.Some? && r.value >= 0
    ensures (|s| == 0 || (!IsDigit(s[0]) && s[0] != '-' && s[0] != '+')) ==> r.None?
  {
    var negative := |s| >= 1 && s[0] == '-';
    var body := if |s| >= 1 && (s[0] == '-' || s[0] == '+') then s[1..] else s;
    var digits := DigitPrefix(body);
    if |digits| == 0 then None
    else if negative then Some(-(DecimalValue(digits) as int))
    else Some(DecimalValue(digits))
  }

  /** `parseInt(String(n), 10) === n`. */
  lemma ParseIntIntToString(n: int)
    ensures ParseInt(IntToString(n)) == Some(n)
  {
    var s := IntToString(n);
    if n < 0 {
      var d := NatToDecimal(-n);
      assert s[1..] == d;
      assert DigitPrefix(d) == d;
      DecimalRoundTrip(-n);
    } else {
      assert DigitPrefix(s) == s;
      DecimalRoundTrip(n);
    }
  }

  // ---------------------------------------------------------------------
  // Escaping, so that arbitrary text can travel in one field

  function EscapeChar(c: char): (e: string)
    ensures |e| >= 1 && ' ' !in e && '.' !in e
  {
    if c == '%' then "%%" else if c == ' ' then "%_" else if c == '.' then "%-" else [c]
  }

  /** `s` with '%', ' ' and '.' replaced by two-character escapes. */
  function Escape(s: string): (e: string)
    ensures ' ' !in e && '.' !in e
    decreases |s|
  {
    if |s| == 0 then "" else EscapeChar(s[0]) + Escape(s[1..])
  }

  function Unescape(e: string): (s: Option<string>)
    decreases |e|
  {
    if |e| == 0 then Some("")
    else if e[0] != '%' then
      match Unescape(e[1..])
      case None => None
      case Some(rest) => Some([e[0]] + rest)
    else if |e| < 2 then None
    else
      var c := e[1];
      if c != '%' && c != '_' && c != '-' then None
      else
        match Unescape(e[2..])
        case None => None
        case Some(rest) => Some([if c == '%' then '%' else if c == '_' then ' ' else '.'] + rest)
  }

  lemma {:induction false} UnescapeEscape(s: string)
    ensures Unescape(Escape(s)) == Some(s)
    decreases |s|
  {
    if |s| > 0 {
      var e := Escape(s);
      var head := EscapeChar(s[0]);
      assert e == head + Escape(s[1..]);
      UnescapeEscape(s[1..]);
      if |head| == 1 {
        assert e[1..] == Escape(s[1..]);
      } else {
        assert e[2..] == Escape(s[1..]);
      }
      assert [s[0]] + s[1..] == s;
    }
  }
}
