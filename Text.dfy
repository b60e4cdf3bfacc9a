/** The string operations the handlers rely on: JavaScript's `split` with a one-character
    separator, `String(n)` for integers, `padStart`, and the line terminators that the
    regular-expression `.` does not match. */
module Text {

  import opened Wrappers

  /** Concatenates `fields` with `sep` between neighbours (JavaScript's `join`). */
  function Join(fields: seq<string>, sep: char): string
  {
    if |fields| == 0 then ""
    else if |fields| == 1 then fields[0]
    else fields[0] + [sep] + Join(fields[1..], sep)
  }

  /** `s.split(sep)`: the maximal pieces of `s` between occurrences of `sep`, in order.
      Always at least one field; a leading, trailing or doubled separator yields an
      empty field. */
  function Split(s: string, sep: char): (fields: seq<string>)
    ensures |fields| >= 1
    ensures forall i :: 0 <= i < |fields| ==> sep !in fields[i]
    ensures Join(fields, sep) == s
  {
    if s == [] then [""]
    else
      var rest := Split(s[1..], sep);
      if s[0] == sep then
        assert ([""] + rest)[1..] == rest;
        [""] + rest
      else
        var fields := [[s[0]] + rest[0]] + rest[1..];
        assert fields[1..] == rest[1..];
        assert |rest| > 1 ==> Join(rest, sep) == rest[0] + [sep] + Join(rest[1..], sep);
        assert s == [s[0]] + s[1..];
        fields
  }

  /** A string without the separator is a single field. */
  lemma {:induction false} SplitWithoutSeparator(s: string, sep: char)
    requires sep !in s
    ensures Split(s, sep) == [s]
  {
    if s != [] {
      assert sep !in s[1..];
      SplitWithoutSeparator(s[1..], sep);
    }
  }

  /** The first field ends at the first separator; the rest is split on its own. */
  lemma {:induction false} SplitAfterField(a: string, sep: char, b: string)
    requires sep !in a
    ensures Split(a + [sep] + b, sep) == [a] + Split(b, sep)
  {
    if a == [] {
      assert a + [sep] + b == [sep] + b;
      assert ([sep] + b)[1..] == b;
    } else {
      assert (a + [sep] + b)[1..] == a[1..] + [sep] + b;
      assert (a + [sep] + b)[0] == a[0];
      assert sep !in a[1..];
      SplitAfterField(a[1..], sep, b);
      assert [a[0]] + a[1..] == a;
    }
  }

  /** Characters at which the regular-expression `.` stops. */
  predicate IsLineTerminator(c: char)
  {
    c == '\n' || c == '\r' || c == '\U{2028}' || c == '\U{2029}'
  }

  predicate IsDigit(c: char)
  {
    '0' <= c <= '9'
  }

  predicate AllDigits(s: string)
  {
    forall i :: 0 <= i < |s| ==> IsDigit(s[i])
  }

  function DigitChar(d: nat): (c: char)
    requires d < 10
    ensures IsDigit(c) && c as int - '0' as int == d
  {
    ['0', '1', '2', '3', '4', '5', '6', '7', '8', '9'][d]
  }

  /** The number a string of decimal digits denotes, most significant digit first. */
  function DecimalValue(s: string): nat
    requires AllDigits(s)
  {
    if s == [] then 0
    else DecimalValue(s[..|s| - 1]) * 10 + (s[|s| - 1] as int - '0' as int)
  }

  /** A numeral as `String` writes it: digits only, and no leading zero unless it is "0". */
  predicate Canonical(s: string)
  {
    |s| >= 1 && AllDigits(s) && (|s| > 1 ==> s[0] != '0')
  }

  /** `String(n)` for a non-negative integer: its shortest decimal numeral. */
  function NatToDecimal(n: nat): (s: string)
    ensures Canonical(s)
    ensures DecimalValue(s) == n
    ensures n > 0 ==> s[0] != '0'
    decreases n
  {
    if n < 10 then [DigitChar(n)]
    else
      var high := NatToDecimal(n / 10);
      var s := high + [DigitChar(n % 10)];
      assert s[..|s| - 1] == high;
      s
  }

  /** A numeral whose first digit is not 0 denotes a positive number. */
  lemma {:induction false} DecimalPositive(s: string)
    requires |s| >= 1 && AllDigits(s) && s[0] != '0'
    ensures DecimalValue(s) >= 1
  {
    if |s| > 1 {
      DecimalPositive(s[..|s| - 1]);
    }
  }

  /** A canonical numeral is the one `String` writes for its value: no other text
      denotes the same number without a leading zero. */
  lemma {:induction false} CanonicalIsNatToDecimal(s: string)
    requires Canonical(s)
    ensures s == NatToDecimal(DecimalValue(s))
  {
    var n := DecimalValue(s);
    if |s| == 1 {
      assert s[..0] == [] && DecimalValue(s[..0]) == 0;
      assert n == s[0] as int - '0' as int;
      assert DigitChar(n) as int == s[0] as int;
    } else {
      var high := s[..|s| - 1];
      var d := s[|s| - 1] as int - '0' as int;
      assert Canonical(high);
      DecimalPositive(high);
      assert n == DecimalValue(high) * 10 + d;
      assert n / 10 == DecimalValue(high) && n % 10 == d;
      CanonicalIsNatToDecimal(high);
      assert DigitChar(d) as int == s[|s| - 1] as int;
      assert s == high + [s[|s| - 1]];
    }
  }

  /** Two digit strings of the same length and the same value are the same text. */
  lemma {:induction false} DecimalSameLength(s: string, t: string)
    requires AllDigits(s) && AllDigits(t) && |s| == |t|
    requires DecimalValue(s) == DecimalValue(t)
    ensures s == t
  {
    if |s| > 0 {
      var ds := s[|s| - 1] as int - '0' as int;
      var dt := t[|t| - 1] as int - '0' as int;
      var n := DecimalValue(s);
      assert n == DecimalValue(s[..|s| - 1]) * 10 + ds;
      assert n == DecimalValue(t[..|t| - 1]) * 10 + dt;
      assert n % 10 == ds && n % 10 == dt;
      assert n / 10 == DecimalValue(s[..|s| - 1]) && n / 10 == DecimalValue(t[..|t| - 1]);
      DecimalSameLength(s[..|s| - 1], t[..|t| - 1]);
      assert s == s[..|s| - 1] + [s[|s| - 1]];
      assert t == t[..|t| - 1] + [t[|t| - 1]];
    }
  }

  /** `String(n)` for any integer: a minus sign before the numeral of a negative one.
      The text is canonical: no leading zero, and no "-0". */
  function IntToDecimal(n: int): (s: string)
    ensures |s| >= 1 && (IsDigit(s[0]) || s[0] == '-')
    ensures s[0] == '-' ==> |s| >= 2 && s[1] != '0'
    ensures IsDigit(s[0]) && |s| > 1 ==> s[0] != '0'
    ensures '/' !in s
  {
    if n < 0 then "-" + NatToDecimal(-n) else NatToDecimal(n)
  }

  /** Reads back a numeral in the form `IntToDecimal` writes, and nothing else: a
      leading zero, "-0" and a lone "-" are refused. */
  function ParseInt(s: string): Option<int>
  {
    if |s| >= 2 && s[0] == '-' && Canonical(s[1..]) && s[1] != '0' then Some(-(DecimalValue(s[1..]) as int))
    else if Canonical(s) then Some(DecimalValue(s))
    else None
  }

  lemma IntToDecimalRoundTrip(n: int)
    ensures ParseInt(IntToDecimal(n)) == Some(n)
  {
    if n < 0 {
      assert IntToDecimal(n)[1..] == NatToDecimal(-n);
    } else {
      assert !IsDigit('-');
    }
  }

  /** The converse: every text `ParseInt` accepts is the one `IntToDecimal` writes for
      its value, so `ParseInt` is injective. */
  lemma ParseIntCanonical(s: string)
    requires ParseInt(s).Some?
    ensures s == IntToDecimal(ParseInt(s).value)
  {
    if |s| >= 2 && s[0] == '-' && Canonical(s[1..]) && s[1] != '0' {
      NegativeCanonical(s[1..]);
      assert s == "-" + s[1..];
    } else {
      CanonicalIsNatToDecimal(s);
    }
  }

  /** A minus sign before a canonical numeral that does not start with '0' is how
      `IntToDecimal` writes the negative value. */
  lemma NegativeCanonical(digits: string)
    requires Canonical(digits) && digits[0] != '0'
    ensures "-" + digits == IntToDecimal(-(DecimalValue(digits) as int))
  {
    CanonicalIsNatToDecimal(digits);
    DecimalPositive(digits);
  }

  /** `s.padStart(width, [pad])`: `s` itself when already `width` long, otherwise `s`
      with copies of `pad` in front up to exactly `width` characters. */
  function PadStart(s: string, width: nat, pad: char): (r: string)
    ensures |r| == if |s| >= width then |s| else width
    ensures r[|r| - |s|..] == s
    ensures forall i :: 0 <= i < |r| - |s| ==> r[i] == pad
  {
    if |s| >= width then s else seq(width - |s|, _ => pad) + s
  }
}
