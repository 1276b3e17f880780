/** JavaScript's `parseInt(string)` with no radix argument, as the deposit form uses it,
    and `String(n)` for whole numbers, its partner: leading white space is skipped, one
    sign is read, a `0x`/`0X` prefix switches to base 16, and the longest run of digits
    that follows is the value; no digit at all gives `NaN`, written `None` here. */
module NumberParsing {
  import opened Common

  /** The white space and line terminators `parseInt` skips before the number. */
  predicate IsJsWhitespace(c: char)
  {
    || c == '\U{9}' || c == '\U{A}' || c == '\U{B}' || c == '\U{C}' || c == '\U{D}'
    || c == ' ' || c == '\U{A0}' || c == '\U{1680}' || ('\U{2000}' <= c <= '\U{200A}')
    || c == '\U{2028}' || c == '\U{2029}' || c == '\U{202F}' || c == '\U{205F}'
    || c == '\U{3000}' || c == '\U{FEFF}'
  }

  /** The text with its leading white space removed. */
  function TrimStart(s: string): (r: string)
    ensures |r| <= |s| && r == s[|s| - |r|..]
    ensures forall k :: 0 <= k < |s| - |r| ==> IsJsWhitespace(s[k])
    ensures r != [] ==> !IsJsWhitespace(r[0])
  {
    if s != [] && IsJsWhitespace(s[0]) then TrimStart(s[1..]) else s
  }

  /** The value of a hexadecimal digit character, of either case. */
  function DigitValue(c: char): (r: Option<nat>)
    ensures r.Some? ==> r.value < 16
    ensures r.Some? && r.value < 10 <==> '0' <= c <= '9'
  {
    if '0' <= c <= '9' then Some(c as int - '0' as int)
    else if 'a' <= c <= 'f' then Some(c as int - 'a' as int + 10)
    else if 'A' <= c <= 'F' then Some(c as int - 'A' as int + 10)
    else None
  }

  /** The two bases `parseInt` reads without a radix argument. */
  datatype Base = Ten | Sixteen

  predicate IsDigit(c: char, base: Base)
  {
    DigitValue(c).Some? && DigitValue(c).value < (if base == Ten then 10 else 16)
  }

  /** The length of the longest prefix of `s` made of digits of the base. */
  function DigitRun(s: string, base: Base): (n: nat)
    ensures n <= |s|
    ensures forall k :: 0 <= k < n ==> IsDigit(s[k], base)
    ensures n < |s| ==> !IsDigit(s[n], base)
  {
    if s != [] && IsDigit(s[0], base) then 1 + DigitRun(s[1..], base) else 0
  }

  /** The number a run of digits denotes, most significant digit first. */
  function ValueOf(d: string, base: Base): nat
    requires forall k :: 0 <= k < |d| ==> IsDigit(d[k], base)
  {
    if d == [] then 0
    else
      assert IsDigit(d[|d| - 1], base);
      var high := ValueOf(d[..|d| - 1], base);
      (if base == Ten then high * 10 else high * 16) + DigitValue(d[|d| - 1]).value
  }

  /** The digits after the sign: a `0x`/`0X` prefix selects base 16, otherwise base 10,
      and the longest run of digits of that base is read; no digit at all is `NaN`. */
  function ParseUnsigned(u: string): (r: Option<nat>)
    ensures u == [] ==> r.None?
  {
    var hex := |u| >= 2 && u[0] == '0' && (u[1] == 'x' || u[1] == 'X');
    var base := if hex then Sixteen else Ten;
    var body := if hex then u[2..] else u;
    var n := DigitRun(body, base);
    if n == 0 then None else Some(ValueOf(body[..n], base))
  }

  /** `parseInt(s)`, with `NaN` as `None`: white space, then the number. */
  function ParseInt(s: string): (r: Option<int>)
    ensures r.Some? ==>
      var t := TrimStart(s);
      var u := if t != [] && (t[0] == '-' || t[0] == '+') then t[1..] else t;
      u != [] && '0' <= u[0] <= '9'
    ensures r.Some? && r.value < 0 ==> TrimStart(s)[0] == '-'
  {
    ParseSigned(TrimStart(s))
  }

  /** One optional sign, then the digits. */
  function ParseSigned(t: string): (r: Option<int>)
    ensures t == [] ==> r.None?
  {
    var negative := t != [] && t[0] == '-';
    var digits := if t != [] && (t[0] == '-' || t[0] == '+') then t[1..] else t;
    match ParseUnsigned(digits)
    case None => None
    case Some(v) => var w: int := v; Some(if negative then -w else w)
  }

  function DigitChar(d: nat): (c: char)
    requires d < 10
    ensures '0' <= c <= '9' && DigitValue(c) == Some(d)
  {
    ('0' as int + d) as char
  }

  /** The decimal numeral of a natural number, without leading zeros. */
  function Natural(n: nat): (r: string)
    ensures r != []
    ensures forall k :: 0 <= k < |r| ==> '0' <= r[k] <= '9'
    ensures n > 0 ==> r[0] != '0'
    ensures n == 0 ==> r == "0"
  {
    if n < 10 then [DigitChar(n)] else Natural(n / 10) + [DigitChar(n % 10)]
  }

  /** `String(n)` for a whole number: a minus sign for negatives, then the digits. */
  function Decimal(n: int): (r: string)
    ensures r != []
    ensures r[0] == '-' <==> n < 0
    ensures n >= 0 ==> r == Natural(n)
  {
    if n < 0 then "-" + Natural(-n) else Natural(n)
  }

  /** Reading the numeral of `n` back gives `n`. */
  lemma {:induction false} ValueOfNatural(n: nat)
    ensures forall k :: 0 <= k < |Natural(n)| ==> IsDigit(Natural(n)[k], Ten)
    ensures ValueOf(Natural(n), Ten) == n
  {
    var d := Natural(n);
    if n >= 10 {
      ValueOfNatural(n / 10);
      assert d[..|d| - 1] == Natural(n / 10);
    }
  }

  /** A run of digits followed by a non-digit is exactly what `DigitRun` measures. */
  lemma {:induction false} DigitRunStopsAt(d: string, rest: string, base: Base)
    requires forall k :: 0 <= k < |d| ==> IsDigit(d[k], base)
    requires rest == [] || !IsDigit(rest[0], base)
    ensures DigitRun(d + rest, base) == |d|
  {
    if d != [] {
      assert (d + rest)[1..] == d[1..] + rest;
      DigitRunStopsAt(d[1..], rest, base);
    } else {
      assert d + rest == rest;
    }
  }

  /** Leading white space does not change what `parseInt` reads. */
  lemma {:induction false} ParseIntSkipsWhitespace(ws: string, s: string)
    requires forall k :: 0 <= k < |ws| ==> IsJsWhitespace(ws[k])
    ensures ParseInt(ws + s) == ParseInt(s)
  {
    TrimStartSkips(ws, s);
  }

  lemma {:induction false} TrimStartSkips(ws: string, s: string)
    requires forall k :: 0 <= k < |ws| ==> IsJsWhitespace(ws[k])
    ensures TrimStart(ws + s) == TrimStart(s)
  {
    if ws == [] {
      assert ws + s == s;
    } else {
      assert (ws + s)[1..] == ws[1..] + s;
      TrimStartSkips(ws[1..], s);
    }
  }

  /** A non-empty run of decimal digits, leading zeros allowed. */
  predicate DecimalDigits(d: string)
  {
    d != [] && forall k :: 0 <= k < |d| ==> IsDigit(d[k], Ten)
  }

  /** A numeral as `String` writes it: decimal digits, and no leading zero unless the
      numeral is "0" itself. */
  predicate Canonical(d: string)
  {
    DecimalDigits(d) && (d[0] == '0' ==> |d| == 1)
  }

  /** What may follow a numeral without changing what `parseInt` reads: nothing, or a
      character that is neither a decimal digit nor an `x` (which would turn "0" into a
      hexadecimal prefix). */
  predicate EndsNumeral(rest: string)
  {
    rest == [] || (!('0' <= rest[0] <= '9') && rest[0] != 'x' && rest[0] != 'X')
  }

  /** `parseInt(String(n) + rest) === n` whenever `rest` cannot extend the numeral. In
      particular `parseInt` drops a fractional part: `parseInt("12.75") === 12`. */
  lemma ParseIntOfDecimal(n: int, rest: string)
    requires EndsNumeral(rest)
    ensures ParseInt(Decimal(n) + rest) == Some(n)
  {
    if n < 0 {
      ParseIntOfNegativeDecimal(n, rest);
    } else {
      ParseIntOfNonNegativeDecimal(n, rest);
    }
  }

  lemma ParseIntOfNegativeDecimal(n: int, rest: string)
    requires n < 0 && EndsNumeral(rest)
    ensures ParseInt(Decimal(n) + rest) == Some(n)
  {
    NaturalIsCanonical(-n);
    ParseUnsignedOfDigits(Natural(-n), rest);
    NegativeDecimal(n);
    NegatedText(Decimal(n), Natural(-n), rest, -n);
  }

  /** A minus sign before digits that read as `v` reads as `-v`, whatever follows. */
  lemma NegatedText(text: string, d: string, rest: string, v: nat)
    requires text == "-" + d && ParseUnsigned(d + rest) == Some(v)
    ensures ParseInt(text + rest) == Some(-(v as int))
  {
    SignThenRest(text, d, rest);
    SignedText(d + rest, v);
    SameText(text + rest, "-" + (d + rest));
  }

  lemma ParseIntOfNonNegativeDecimal(n: int, rest: string)
    requires n >= 0 && EndsNumeral(rest)
    ensures ParseInt(Decimal(n) + rest) == Some(n)
  {
    NaturalIsCanonical(n);
    ParseIntOfDigits(Natural(n), rest);
    SameText(Decimal(n) + rest, Natural(n) + rest);
  }

  lemma SameText(a: string, b: string)
    requires a == b
    ensures ParseInt(a) == ParseInt(b)
  {
  }

  /** The numeral of `m` is canonical and denotes `m`. */
  lemma NaturalIsCanonical(m: nat)
    ensures Canonical(Natural(m)) && ValueOf(Natural(m), Ten) == m
  {
    ValueOfNatural(m);
  }

  lemma NegativeDecimal(n: int)
    requires n < 0
    ensures Decimal(n) == "-" + Natural(-n)
  {
  }

  lemma SignThenRest(a: string, b: string, rest: string)
    requires a == "-" + b
    ensures a + rest == "-" + (b + rest)
  {
  }

  /** A run of decimal digits, leading zeros included ("007" reads as 7), followed by
      something that cannot extend it, reads as its value. */
  lemma ParseIntOfDigits(d: string, rest: string)
    requires DecimalDigits(d) && EndsNumeral(rest)
    ensures ParseInt(d + rest) == Some(ValueOf(d, Ten))
  {
    ParseUnsignedOfDigits(d, rest);
    assert (d + rest)[0] == d[0];
    UnsignedText(d + rest);
  }

  /** Text that starts with a digit is read by `ParseUnsigned` alone. */
  lemma UnsignedText(u: string)
    requires u != [] && '0' <= u[0] <= '9'
    ensures ParseInt(u) == ParseUnsigned(u)
  {
    NoLeadingWhitespace(u);
  }

  /** Text that starts with a minus sign reads as the negated unsigned number after it. */
  lemma SignedText(u: string, v: nat)
    requires ParseUnsigned(u) == Some(v)
    ensures ParseInt("-" + u) == Some(-(v as int))
  {
    assert ("-" + u)[1..] == u;
    NoLeadingWhitespace("-" + u);
  }

  lemma NoLeadingWhitespace(s: string)
    requires s != [] && (s[0] == '-' || '0' <= s[0] <= '9')
    ensures TrimStart(s) == s
  {
  }

  /** The digits after the sign of a canonical numeral are read in base 10, up to `rest`. */
  lemma ParseUnsignedOfDigits(d: string, rest: string)
    requires DecimalDigits(d) && EndsNumeral(rest)
    ensures ParseUnsigned(d + rest) == Some(ValueOf(d, Ten))
  {
    var u := d + rest;
    assert !(|u| >= 2 && u[0] == '0' && (u[1] == 'x' || u[1] == 'X')) by {
      if |u| >= 2 {
        if |d| >= 2 {
          assert u[1] == d[1] && IsDigit(d[1], Ten);
        } else {
          assert u[1] == rest[0];
        }
      }
    }
    DigitRunStopsAt(d, rest, Ten);
    assert u[..|d|] == d;
  }

  /** A numeral followed by anything that is not a digit reads as its value; a lone
      fractional part is ignored. */
  lemma ParseIntDropsFraction(n: int, fraction: string)
    ensures ParseInt(Decimal(n) + "." + fraction) == Some(n)
  {
    assert Decimal(n) + "." + fraction == Decimal(n) + ("." + fraction);
    ParseIntOfDecimal(n, "." + fraction);
  }

  /** Text that does not start, after white space and one sign, with a digit is `NaN`. */
  lemma NoLeadingDigitIsNaN(s: string)
    requires var t := TrimStart(s);
      var u := if t != [] && (t[0] == '-' || t[0] == '+') then t[1..] else t;
      u == [] || !('0' <= u[0] <= '9')
    ensures ParseInt(s) == None
  {
  }

  /** A `0x` or `0X` prefix reads the longest run of hexadecimal digits after it in
      base 16: for instance `parseInt("0x1f") === 31`. */
  lemma HexadecimalPrefix(x: char, h: string, rest: string)
    requires x == 'x' || x == 'X'
    requires h != [] && forall k :: 0 <= k < |h| ==> IsDigit(h[k], Sixteen)
    requires rest == [] || !IsDigit(rest[0], Sixteen)
    ensures ParseInt(['0', x] + h + rest) == Some(ValueOf(h, Sixteen))
  {
    HexBody(x, h, rest);
    UnsignedText(['0', x] + h + rest);
  }

  lemma HexBody(x: char, h: string, rest: string)
    requires x == 'x' || x == 'X'
    requires h != [] && forall k :: 0 <= k < |h| ==> IsDigit(h[k], Sixteen)
    requires rest == [] || !IsDigit(rest[0], Sixteen)
    ensures ParseUnsigned(['0', x] + h + rest) == Some(ValueOf(h, Sixteen))
  {
    var body := h + rest;
    var u := ['0', x] + body;
    assert ['0', x] + h + rest == u;
    assert u[0] == '0' && u[1] == x && u[2..] == body;
    DigitRunStopsAt(h, rest, Sixteen);
    var n := DigitRun(body, Sixteen);
    assert n == |h| && body[..n] == h;
    assert ParseUnsigned(u) == Some(ValueOf(body[..n], Sixteen));
  }

  /** A `0x` or `0X` prefix with no hexadecimal digit after it is `NaN`, even though the
      `0` alone would read as a number. */
  lemma BarePrefixIsNaN(x: char, rest: string)
    requires x == 'x' || x == 'X'
    requires rest == [] || !IsDigit(rest[0], Sixteen)
    ensures ParseInt(['0', x] + rest) == None
  {
    var u := ['0', x] + rest;
    assert u[2..] == rest;
    UnsignedText(u);
  }
}
