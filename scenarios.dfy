/** Concrete runs: the program's own demonstration (two records written
    to a file and read back) and what the decoder does with a truncated
    line, a malformed number, an empty stream and an oversized string. */
module Scenarios {
  import opened Record
  import opened FieldConverter
  import opened Encoder
  import opened Decoder
  import opened RoundTrip

  lemma Decimal23()
    ensures Decimal(23) == "23"
  {
    assert Digits(2) == "2";
    assert Digits(23) == Digits(2) + [DigitChar(3)];
  }

  lemma Decimal30()
    ensures Decimal(30) == "30"
  {
    assert Digits(3) == "3";
    assert Digits(30) == Digits(3) + [DigitChar(0)];
  }

  /** The line written for a record holding 23, a float shown as `45.8`
      and the string `prueba`. */
  lemma DemoLine1(d: Datos, showFloat: Float32 -> seq<char>)
    requires WellFormed(d) && d.dato1 == 23 && showFloat(d.dato2) == "45.8" && CStr(d.cadena) == "prueba"
    ensures Encode(d, showFloat) == "23|45.8|prueba\n"
  {
    Decimal23();
  }

  /** The line written for a record holding 30, a float shown as `70.965`
      and the string `test con espacios`. */
  lemma DemoLine2(d: Datos, showFloat: Float32 -> seq<char>)
    requires WellFormed(d) && d.dato1 == 30 && showFloat(d.dato2) == "70.965"
    requires CStr(d.cadena) == "test con espacios"
    ensures Encode(d, showFloat) == "30|70.965|test con espacios\n"
  {
    Decimal30();
    JoinLine2("30", "70.965", "test con espacios");
  }

  lemma JoinLine2(a: seq<char>, b: seq<char>, c: seq<char>)
    requires a == "30" && b == "70.965" && c == "test con espacios"
    ensures a + "|" + b + "|" + c + "\n" == "30|70.965|test con espacios\n"
  {
  }

  /** The file holds the two lines, one after the other. */
  lemma DemoFile(l1: seq<char>, l2: seq<char>)
    requires l1 == "23|45.8|prueba\n" && l2 == "30|70.965|test con espacios\n"
    ensures l1 + l2 == "23|45.8|prueba\n30|70.965|test con espacios\n"
  {
  }

  /** The demonstration's strings are terminated C strings in their
      buffers and hold no newline; their float texts hold no `|`. */
  lemma DemoTexts(cadena1: seq<char>, cadena2: seq<char>)
    requires |cadena1| == Capacity && CStr(cadena1) == "prueba"
    requires |cadena2| == Capacity && CStr(cadena2) == "test con espacios"
    ensures NUL in cadena1 && NUL in cadena2
    ensures '\n' !in CStr(cadena1) && '\n' !in CStr(cadena2)
    ensures '|' !in "45.8" && '|' !in "70.965"
  {
  }

  /** The demonstration: `{23, 45.8, "prueba"}` and
      `{30, 70.965, "test con espacios"}` are written to one file, which
      is then read with two decodes. `cadena1` and `cadena2` are the
      records' `char[20]` buffers as their initialisers fill them. The
      file holds exactly the two lines, and each decode gives back its
      record's integer and string, spaces included. */
  method WriteAndReadBack(f1: Float32, f2: Float32, cadena1: seq<char>, cadena2: seq<char>, init: Datos,
                          showFloat: Float32 -> seq<char>, parseFloat: seq<char> -> Option<Float32>)
    returns (file: seq<char>, first: Datos, second: Datos)
    requires showFloat(f1) == "45.8" && showFloat(f2) == "70.965"
    requires |cadena1| == Capacity && CStr(cadena1) == "prueba"
    requires |cadena2| == Capacity && CStr(cadena2) == "test con espacios"
    requires |init.cadena| == Capacity
    ensures file == "23|45.8|prueba\n30|70.965|test con espacios\n"
    ensures first.dato1 == 23 && CStr(first.cadena) == "prueba"
    ensures first.dato2 == parseFloat("45.8").GetOr(init.dato2)
    ensures second.dato1 == 30 && CStr(second.cadena) == "test con espacios"
    ensures second.dato2 == parseFloat("70.965").GetOr(init.dato2)
  {
    DemoTexts(cadena1, cadena2);
    var out := new OutputStream();
    var datosObj := Datos(23, f1, cadena1);
    out.Serialize(datosObj, showFloat);
    var datosObj2 := Datos(30, f2, cadena2);
    out.Serialize(datosObj2, showFloat);
    file := out.written;
    ghost var l1, l2 := Encode(datosObj, showFloat), Encode(datosObj2, showFloat);
    assert file == l1 + l2;
    DemoLine1(datosObj, showFloat);
    DemoLine2(datosObj2, showFloat);
    DemoFile(l1, l2);

    DecodeTwoLines(datosObj, datosObj2, [], init, init, showFloat, parseFloat);
    assert file + [] == file;
    var fichero := new InputStream(file);
    first := Deserialize(fichero, init, parseFloat);
    second := Deserialize(fichero, init, parseFloat);
  }

  /** `23|45.8` with no string and no newline: no error is reported. The
      second read hits the end (eofbit), the third is not attempted
      (failbit), and the record gets 23, the parsed float and an empty
      string. */
  lemma TruncatedLine(init: Datos, parseFloat: seq<char> -> Option<Float32>)
    requires |init.cadena| == Capacity
    ensures var st := StreamState("23|45.8", 0, false, false);
            CanDecode(st) &&
            var r := Decode(st, init, parseFloat);
            r.record.dato1 == 23 && r.record.dato2 == parseFloat("45.8").GetOr(init.dato2) &&
            CStr(r.record.cadena) == [] && r.after == StreamState(st.data, 7, true, true)
  {
    var st := StreamState("23|45.8", 0, false, false);
    assert LineAt(st, "23" + "|");
    ReadUntilToken(st, "23", '|');
    var s1 := st.(pos := 3);
    var r1 := ReadUntil(s1, '|');
    assert r1.token == "45.8";
    Decimal23();
    Int32RoundTrip(23, [], init.dato1);
    assert "23" + [] == "23";
  }

  /** `abc|45.8|x\n`: the integer parse fails, so `dato1` keeps the
      uninitialised value; the other fields are read as usual. */
  lemma MalformedNumber(init: Datos, parseFloat: seq<char> -> Option<Float32>)
    requires |init.cadena| == Capacity
    ensures var st := StreamState("abc|45.8|x\n", 0, false, false);
            CanDecode(st) &&
            var r := Decode(st, init, parseFloat);
            r.record.dato1 == init.dato1 && r.record.dato2 == parseFloat("45.8").GetOr(init.dato2) &&
            CStr(r.record.cadena) == "x" && r.after == st.(pos := 11)
  {
    var st := StreamState("abc|45.8|x\n", 0, false, false);
    MalformedTokens(st);
    FromCharsRejectsNonNumeral("abc", init.dato1);
    assert CStr("x") == "x";
  }

  /** The reads of `MalformedNumber`'s line. */
  lemma MalformedTokens(st: StreamState)
    requires st == StreamState("abc|45.8|x\n", 0, false, false)
    ensures ReadTokens(st) == Tokens(["abc", "45.8", [], "x"], st.(pos := 11))
  {
    assert st.data[0..11] == "abc" + "|" + "45.8" + "|" + "x" + "\n";
    ReadTokensOfLine(st, "abc", "45.8", "x");
  }

  /** An exhausted stream: every read fails, nothing is reported, and the
      record holds the uninitialised `dato1`, the float parse of an empty
      token and an empty string. */
  lemma EmptyStream(init: Datos, parseFloat: seq<char> -> Option<Float32>)
    requires |init.cadena| == Capacity
    ensures var st := StreamState([], 0, false, false);
            CanDecode(st) &&
            var r := Decode(st, init, parseFloat);
            r.record.dato1 == init.dato1 && r.record.dato2 == parseFloat([]).GetOr(init.dato2) &&
            CStr(r.record.cadena) == [] && r.after == StreamState([], 0, true, true)
  {
    FromCharsRejectsNonNumeral([], init.dato1);
  }

  lemma NoTerminatorIn(x: seq<char>, y: seq<char>)
    requires x == "abcdefghij" && y == "klmnopqrst"
    ensures NUL !in x + y && x + y == "abcdefghijklmnopqrst"
  {
    assert NUL !in x;
    assert NUL !in y;
  }

  /** A string token of 20 characters does not fit `cadena`: the copy
      would write 21 characters into the 20-character buffer, so the
      decoder is not defined on this line. */
  lemma OversizedString()
    ensures !CanDecode(StreamState("1|2|" + "abcdefghijklmnopqrst" + "\n", 0, false, false))
  {
    var st := StreamState("1|2|" + "abcdefghijklmnopqrst" + "\n", 0, false, false);
    assert st.data[0..25] == "1" + "|" + "2" + "|" + "abcdefghijklmnopqrst" + "\n";
    var c := "abcdefghijklmnopqrst";
    ReadTokensOfLine(st, "1", "2", c);
    NoTerminatorIn("abcdefghij", "klmnopqrst");
    CStrOfPlain(c);
  }

  /** A long string token with a terminator inside: `snprintf` stops at
      that terminator, so only `ab` and a terminator are written, which
      fits `cadena` although the token itself is 22 characters long. */
  lemma EmbeddedTerminator(init: Datos, parseFloat: seq<char> -> Option<Float32>)
    requires |init.cadena| == Capacity
    ensures var st := StreamState("1|2|" + ("ab" + [NUL] + "cdefghijklmnopqrstu") + "\n", 0, false, false);
            CanDecode(st) && CStr(Decode(st, init, parseFloat).record.cadena) == "ab"
  {
    var c := "ab" + [NUL] + "cdefghijklmnopqrstu";
    var st := StreamState("1|2|" + c + "\n", 0, false, false);
    assert st.data[0..|st.data|] == "1" + "|" + "2" + "|" + c + "\n";
    EmbeddedToken(c);
    ReadTokensOfLine(st, "1", "2", c);
  }

  /** The token of `EmbeddedTerminator` holds no newline and reads as the
      C string `ab`. */
  lemma EmbeddedToken(c: seq<char>)
    requires c == "ab" + [NUL] + "cdefghijklmnopqrstu"
    ensures '\n' !in c && CStr(c) == "ab"
  {
    CStrOfTerminated("ab", "cdefghijklmnopqrstu");
  }
}
