/** Field conversion between typed values and their text tokens: the
    decimal text that `operator<<` writes for an `int32_t`, the integer
    parse of `std::from_chars`, the string copy made with `snprintf`, and
    `convertir_tipos_chars`, which rebuilds a record from its tokens. */
module FieldConverter {
  import opened Record

  const Int32Min: int := -0x8000_0000
  const Int32Max: int := 0x7FFF_FFFF
  const UInt16Max: int := 0xFFFF

  predicate IsDigit(c: char)
  {
    '0' <= c <= '9'
  }

  predicate AllDigits(s: seq<char>)
  {
    forall i :: 0 <= i < |s| ==> IsDigit(s[i])
  }

  function DigitValue(c: char): (d: nat)
    requires IsDigit(c)
    ensures d < 10
  {
    (c as int) - ('0' as int)
  }

  function DigitChar(d: nat): (c: char)
    requires d < 10
    ensures IsDigit(c) && DigitValue(c) == d
  {
    ('0' as int + d) as char
  }

  // ---------------------------------------------------------------------
  // Rendering

  /** The decimal digits of `n`, most significant first. */
  function Digits(n: nat): (r: seq<char>)
    ensures |r| >= 1 && AllDigits(r)
    ensures r[0] == '0' ==> n == 0 && |r| == 1
  {
    if n < 10 then [DigitChar(n)] else Digits(n / 10) + [DigitChar(n % 10)]
  }

  /** The text `operator<<` writes for an integer: a `-` for a negative
      value, then its magnitude in decimal without leading zeros. */
  function Decimal(v: int): (r: seq<char>)
    ensures |r| >= 1 && '|' !in r && '\n' !in r && NUL !in r
    ensures (r[0] == '-') == (v < 0)
  {
    if v < 0 then ['-'] + Digits(-v) else Digits(v)
  }

  // ---------------------------------------------------------------------
  // Parsing, in the manner of std::from_chars with base 10

  /** The value of a run of decimal digits, leading zeros allowed. */
  function DigitsValue(s: seq<char>): nat
    requires AllDigits(s)
  {
    if s == [] then 0 else DigitsValue(s[..|s| - 1]) * 10 + DigitValue(s[|s| - 1])
  }

  /** Length of the longest prefix of `s` made of decimal digits. */
  function DigitRun(s: seq<char>): (n: nat)
    ensures n <= |s| && AllDigits(s[..n])
    ensures n < |s| ==> !IsDigit(s[n])
  {
    if s == [] || !IsDigit(s[0]) then 0
    else
      var n := 1 + DigitRun(s[1..]);
      assert s[..n] == [s[0]] + s[1..][..n - 1];
      n
  }

  /** Whether the token opens with a minus sign that the parse accepts;
      only signed targets accept one. */
  function SignLength(s: seq<char>, signed: bool): (k: nat)
    ensures k <= 1 && k <= |s|
  {
    if signed && |s| > 0 && s[0] == '-' then 1 else 0
  }

  /** The pattern `from_chars` matches: an optional `-` (signed only) and
      at least one digit. */
  predicate IsNumeral(t: seq<char>, signed: bool)
  {
    var k := SignLength(t, signed);
    k < |t| && AllDigits(t[k..])
  }

  /** The value a matched numeral denotes. */
  function NumeralValue(t: seq<char>, signed: bool): int
    requires IsNumeral(t, signed)
  {
    var k := SignLength(t, signed);
    if k == 1 then -(DigitsValue(t[1..]) as int) else DigitsValue(t)
  }

  datatype Errc = NoError | InvalidArgument | ResultOutOfRange

  /** What `from_chars` reports: the number of characters it matched
      (`ptr` minus `first`), its error code, and the target variable's
      value afterwards. */
  datatype FromCharsResult = FromCharsResult(ptr: nat, ec: Errc, value: int)

  /** `std::from_chars(first, last, value)` into an integer variable of
      range `lo..hi` that holds `prior`. It matches the longest numeral
      at the start of `s` (no white space is skipped, no `+` accepted).
      Without one it reports invalid_argument; when the numeral's value
      does not fit it reports result_out_of_range; in both cases the
      target keeps `prior`. */
  function FromChars(s: seq<char>, lo: int, hi: int, signed: bool, prior: int): (r: FromCharsResult)
    requires lo <= prior <= hi
    ensures r.ptr <= |s| && lo <= r.value <= hi
    ensures r.ec == InvalidArgument <==> DigitRun(s[SignLength(s, signed)..]) == 0
    ensures r.ec == InvalidArgument ==> r.ptr == 0 && r.value == prior
    ensures r.ec != InvalidArgument ==>
              IsNumeral(s[..r.ptr], signed) && (r.ptr < |s| ==> !IsDigit(s[r.ptr]))
    ensures r.ec == NoError ==> r.value == NumeralValue(s[..r.ptr], signed)
    ensures r.ec == ResultOutOfRange ==>
              r.value == prior && !(lo <= NumeralValue(s[..r.ptr], signed) <= hi)
  {
    var k := SignLength(s, signed);
    var n := DigitRun(s[k..]);
    if n == 0 then FromCharsResult(0, InvalidArgument, prior)
    else
      var t := s[..k + n];
      assert SignLength(t, signed) == k;
      assert t[k..] == s[k..][..n];
      var v := NumeralValue(t, signed);
      if lo <= v <= hi then FromCharsResult(k + n, NoError, v)
      else FromCharsResult(k + n, ResultOutOfRange, prior)
  }

  /** `from_chars` into an `int32_t`. */
  function FromCharsInt32(s: seq<char>, prior: int32): (r: FromCharsResult)
    ensures Int32Min <= r.value <= Int32Max
  {
    FromChars(s, Int32Min, Int32Max, true, prior as int)
  }

  // ---------------------------------------------------------------------
  // Bounded string copy

  /** `snprintf(buf, size, "%s", src.c_str())`: the output is the C string
      of `src` (it stops at an embedded terminator); at most `size - 1`
      of its characters are stored, then a terminator; the rest of the
      buffer is left as it was. With `size == 0` nothing is written. The
      characters written, terminator included, must fit the buffer. */
  function SnprintfStr(buf: seq<char>, size: nat, src: seq<char>): (r: seq<char>)
    requires (if |CStr(src)| < size then |CStr(src)| + 1 else size) <= |buf|
    ensures |r| == |buf|
    ensures size == 0 ==> r == buf
    ensures size > 0 ==>
              var kept := if |CStr(src)| < size then |CStr(src)| else size - 1;
              CStr(r) == CStr(src)[..kept] && r[kept + 1..] == buf[kept + 1..]
  {
    if size == 0 then buf
    else
      var out := CStr(src);
      var kept := if |out| < size then |out| else size - 1;
      CStrOfTerminated(out[..kept], buf[kept + 1..]);
      out[..kept] + [NUL] + buf[kept + 1..]
  }

  // ---------------------------------------------------------------------
  // convertir_tipos_chars

  /** The slots of the token array `std::string datos_str[4]`. */
  const IntSlot: nat := 0
  const FloatSlot: nat := 1
  const LengthSlot: nat := 2
  const StringSlot: nat := 3

  /** The copy fits `char cadena[20]`: `snprintf` is given a size past
      the whole token, so it writes the token's C string (up to an
      embedded terminator, if any) and a terminator, and those characters
      must fit the buffer. */
  predicate FitsCadena(token: seq<char>)
  {
    |CStr(token)| + 1 <= Capacity
  }

  /** `convertir_tipos_chars`: rebuilds a record from the token array.
      `init` stands for the indeterminate contents of the uninitialised
      local `datos datos_obj`: a field whose conversion fails, and the
      part of `cadena` after the copied terminator, keep it. The parse of
      slot 2 into the local `tam_cadena` is made and then discarded. */
  function ConvertChars(tokens: seq<seq<char>>, init: Datos,
                        parseFloat: seq<char> -> Option<Float32>): (d: Datos)
    requires |tokens| == 4 && |init.cadena| == Capacity
    requires FitsCadena(tokens[StringSlot])
    ensures WellFormed(d)
    ensures d.dato1 as int == FromCharsInt32(tokens[IntSlot], init.dato1).value
    ensures d.dato2 == parseFloat(tokens[FloatSlot]).GetOr(init.dato2)
    ensures CStr(d.cadena) == CStr(tokens[StringSlot])
    ensures var k := |CStr(tokens[StringSlot])|; d.cadena[k + 1..] == init.cadena[k + 1..]
  {
    var dato1 := FromCharsInt32(tokens[IntSlot], init.dato1).value as int32;
    var dato2 := parseFloat(tokens[FloatSlot]).GetOr(init.dato2);
    var tamCadena := FromChars(tokens[LengthSlot], 0, UInt16Max, false, 0);
    var cadena := SnprintfStr(init.cadena, |tokens[StringSlot]| + 1, tokens[StringSlot]);
    Datos(dato1, dato2, cadena)
  }

  // ---------------------------------------------------------------------
  // Properties of the conversions

  /** Reading back the digits of `n` gives `n`. */
  lemma {:induction false} DigitsValueOfDigits(n: nat)
    ensures DigitsValue(Digits(n)) == n
  {
    if n >= 10 {
      var s := Digits(n);
      assert s[..|s| - 1] == Digits(n / 10);
      DigitsValueOfDigits(n / 10);
    }
  }

  /** The digit run of a digit string followed by a non-digit (or by
      nothing) is exactly that digit string. */
  lemma {:induction false} DigitRunOfDigits(s: seq<char>, rest: seq<char>)
    requires AllDigits(s)
    requires rest == [] || !IsDigit(rest[0])
    ensures DigitRun(s + rest) == |s|
  {
    if s != [] {
      assert (s + rest)[1..] == s[1..] + rest;
      DigitRunOfDigits(s[1..], rest);
    }
  }

  /** When a numeral opens the token, the parse matches all of it: the
      optional sign and the whole digit run. */
  lemma FromCharsMatchesNumeral(s: seq<char>, lo: int, hi: int, signed: bool, prior: int)
    requires lo <= prior <= hi
    requires DigitRun(s[SignLength(s, signed)..]) > 0
    ensures var r := FromChars(s, lo, hi, signed, prior);
            r.ec != InvalidArgument &&
            r.ptr == SignLength(s, signed) + DigitRun(s[SignLength(s, signed)..])
  {
  }

  /** A numeral followed by a non-digit (or by nothing) is matched
      whole, whatever follows it. */
  lemma FromCharsOfNumeralPrefix(t: seq<char>, rest: seq<char>, lo: int, hi: int, prior: int)
    requires lo <= prior <= hi && IsNumeral(t, true)
    requires rest == [] || !IsDigit(rest[0])
    ensures var r := FromChars(t + rest, lo, hi, true, prior);
            var v := NumeralValue(t, true);
            r.ptr == |t| &&
            (lo <= v <= hi ==> r.ec == NoError && r.value == v) &&
            (!(lo <= v <= hi) ==> r.ec == ResultOutOfRange && r.value == prior)
  {
    var s := t + rest;
    var k := SignLength(t, true);
    assert SignLength(s, true) == k;
    assert s[k..] == t[k..] + rest;
    DigitRunOfDigits(t[k..], rest);
    FromCharsMatchesNumeral(s, lo, hi, true, prior);
    var r := FromChars(s, lo, hi, true, prior);
    assert s[..r.ptr] == t;
    if lo <= NumeralValue(t, true) <= hi {
      assert r.ec != ResultOutOfRange;
    } else {
      assert r.ec != NoError;
    }
  }

  /** The parse inverts the rendering: it matches exactly the rendered
      numeral, whatever non-digit text follows it, and yields the value
      when it is in range and result_out_of_range otherwise. */
  lemma FromCharsOfDecimal(v: int, rest: seq<char>, lo: int, hi: int, prior: int)
    requires lo <= prior <= hi
    requires rest == [] || !IsDigit(rest[0])
    ensures var r := FromChars(Decimal(v) + rest, lo, hi, true, prior);
            r.ptr == |Decimal(v)| &&
            (lo <= v <= hi ==> r.ec == NoError && r.value == v) &&
            (!(lo <= v <= hi) ==> r.ec == ResultOutOfRange && r.value == prior)
  {
    NumeralOfDecimal(v);
    FromCharsOfNumeralPrefix(Decimal(v), rest, lo, hi, prior);
  }

  lemma NumeralOfDecimal(v: int)
    ensures IsNumeral(Decimal(v), true) && NumeralValue(Decimal(v), true) == v
  {
    var mag := if v < 0 then -v else v;
    var k := if v < 0 then 1 else 0;
    assert SignLength(Decimal(v), true) == k;
    assert Decimal(v)[k..] == Digits(mag);
    DigitsValueOfDigits(mag);
  }

  /** Every `int32_t` survives being written and read back. */
  lemma Int32RoundTrip(n: int32, rest: seq<char>, prior: int32)
    requires rest == [] || !IsDigit(rest[0])
    ensures FromCharsInt32(Decimal(n as int) + rest, prior) ==
            FromCharsResult(|Decimal(n as int)|, NoError, n as int)
  {
    FromCharsOfDecimal(n as int, rest, Int32Min, Int32Max, prior as int);
  }

  /** A token that does not open with a digit (after an accepted minus
      sign) gives no value: the target keeps what it held. */
  lemma FromCharsRejectsNonNumeral(s: seq<char>, prior: int32)
    requires var k := SignLength(s, true); k == |s| || !IsDigit(s[k])
    ensures FromCharsInt32(s, prior) == FromCharsResult(0, InvalidArgument, prior as int)
  {
  }

  /** The slot-2 token (parsed into the discarded `tam_cadena`) affects no
      field of the converted record. */
  lemma ConvertIgnoresLengthSlot(tokens: seq<seq<char>>, other: seq<char>, init: Datos,
                                 parseFloat: seq<char> -> Option<Float32>)
    requires |tokens| == 4 && |init.cadena| == Capacity
    requires FitsCadena(tokens[StringSlot])
    ensures ConvertChars(tokens[LengthSlot := other], init, parseFloat) == ConvertChars(tokens, init, parseFloat)
  {
  }

  /** A string token that fits is copied whole: the record's C string is
      the token itself when the token holds no terminator. */
  lemma ConvertCopiesString(tokens: seq<seq<char>>, init: Datos,
                            parseFloat: seq<char> -> Option<Float32>)
    requires |tokens| == 4 && |init.cadena| == Capacity
    requires FitsCadena(tokens[StringSlot]) && NUL !in tokens[StringSlot]
    ensures CStr(ConvertChars(tokens, init, parseFloat).cadena) == tokens[StringSlot]
  {
    var t := tokens[StringSlot];
    assert CStr(t) == t[..|CStr(t)|];
  }
}
