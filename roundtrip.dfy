/** What the decoder recovers from the encoder's line: the tokens, the
    record, and where the stream is left. */
module RoundTrip {
  import opened Record
  import opened FieldConverter
  import opened Encoder
  import opened Decoder

  /** The stream's unread data starts with `line`. */
  predicate LineAt(st: StreamState, line: seq<char>)
  {
    st.pos + |line| <= |st.data| && st.data[st.pos..st.pos + |line|] == line
  }

  /** A read up to `delim` on a good stream whose next characters are
      `tok` and then `delim` yields exactly `tok`, and consumes the
      delimiter as well. */
  lemma ReadUntilToken(st: StreamState, tok: seq<char>, delim: char)
    requires Valid(st) && Good(st) && delim !in tok
    requires LineAt(st, tok + [delim])
    ensures ReadUntil(st, delim) == GetLineResult(tok, st.(pos := st.pos + |tok| + 1))
  {
    var p := st.pos;
    assert st.data[p + |tok|] == (tok + [delim])[|tok|];
    assert st.data[p..p + |tok|] == (tok + [delim])[..|tok|];
  }

  /** A line that starts with `x` and continues with `y`: after `x`, the
      data continues with `y`. */
  lemma LineAtSplit(st: StreamState, x: seq<char>, y: seq<char>)
    requires LineAt(st, x + y)
    ensures LineAt(st, x) && LineAt(st.(pos := st.pos + |x|), y)
  {
    var p := st.pos;
    assert st.data[p..p + |x|] == (x + y)[..|x|];
    assert st.data[p + |x|..p + |x| + |y|] == (x + y)[|x|..];
  }

  /** A line `a|b|c` followed by a newline, regrouped from the right. */
  lemma LineRegroup(a: seq<char>, b: seq<char>, c: seq<char>)
    ensures a + "|" + b + "|" + c + "\n" == (a + "|") + ((b + "|") + (c + "\n"))
  {
  }

  /** The tokenizer: on a good stream whose next characters are `a|b|c`
      and a newline, with no `|` in `a` or `b` and no newline in `c`, the
      three reads give `a`, `b` and `c` (slot 2 stays empty), and the
      stream is left good, just past the newline. A `|` inside `c` and
      spaces anywhere are kept. */
  lemma ReadTokensOfLine(st: StreamState, a: seq<char>, b: seq<char>, c: seq<char>)
    requires Valid(st) && Good(st)
    requires '|' !in a && '|' !in b && '\n' !in c
    requires LineAt(st, a + "|" + b + "|" + c + "\n")
    ensures ReadTokens(st) == Tokens([a, b, [], c], st.(pos := st.pos + |a| + |b| + |c| + 3))
  {
    LineRegroup(a, b, c);
    LineAtSplit(st, a + "|", (b + "|") + (c + "\n"));
    var s1 := st.(pos := st.pos + |a| + 1);
    LineAtSplit(s1, b + "|", c + "\n");
    var s2 := s1.(pos := s1.pos + |b| + 1);
    ReadUntilToken(st, a, '|');
    ReadUntilToken(s1, b, '|');
    ReadUntilToken(s2, c, '\n');
  }

  /** The three reads of the decoder split an encoded line into its
      integer text, its float text (it must hold no `|`) and its C string
      (it must hold no newline); slot 2 stays empty; the stream ends up
      just past the line's newline and is still good. */
  lemma ReadTokensOfEncode(st: StreamState, d: Datos, showFloat: Float32 -> seq<char>)
    requires Valid(st) && Good(st) && WellFormed(d)
    requires '|' !in showFloat(d.dato2) && '\n' !in CStr(d.cadena)
    requires LineAt(st, Encode(d, showFloat))
    ensures ReadTokens(st) ==
            Tokens([Decimal(d.dato1 as int), showFloat(d.dato2), [], CStr(d.cadena)],
                   st.(pos := st.pos + |Encode(d, showFloat)|))
  {
    ReadTokensOfLine(st, Decimal(d.dato1 as int), showFloat(d.dato2), CStr(d.cadena));
  }

  /** Round trip: decoding the encoding of a record gives back the same
      `dato1` and the same string in `cadena`; `dato2` is whatever the
      float parse makes of the float's text (the uninitialised value when
      that parse fails); and the stream is left good, just past the
      record's newline. Only a newline in the string or a `|` in the
      float's text breaks the record's field boundaries. */
  lemma DecodeOfEncode(st: StreamState, d: Datos, init: Datos,
                       showFloat: Float32 -> seq<char>, parseFloat: seq<char> -> Option<Float32>)
    requires Valid(st) && Good(st) && WellFormed(d) && |init.cadena| == Capacity
    requires '|' !in showFloat(d.dato2) && '\n' !in CStr(d.cadena)
    requires LineAt(st, Encode(d, showFloat))
    ensures CanDecode(st)
    ensures var r := Decode(st, init, parseFloat);
            r.record.dato1 == d.dato1 &&
            CStr(r.record.cadena) == CStr(d.cadena) &&
            r.record.dato2 == parseFloat(showFloat(d.dato2)).GetOr(init.dato2) &&
            r.after == st.(pos := st.pos + |Encode(d, showFloat)|)
  {
    ReadTokensOfEncode(st, d, showFloat);
    var t := ReadTokens(st);
    Int32RoundTrip(d.dato1, [], init.dato1);
    assert Decimal(d.dato1 as int) + [] == Decimal(d.dato1 as int);
    ConvertCopiesString(t.slots, init, parseFloat);
  }

  /** Two records written one after the other are read back one per
      decode: the first decode leaves the cursor at the start of the
      second line, and the second decode leaves it past that line. */
  lemma DecodeTwoLines(d1: Datos, d2: Datos, rest: seq<char>, init1: Datos, init2: Datos,
                       showFloat: Float32 -> seq<char>, parseFloat: seq<char> -> Option<Float32>)
    requires WellFormed(d1) && WellFormed(d2)
    requires |init1.cadena| == Capacity && |init2.cadena| == Capacity
    requires '|' !in showFloat(d1.dato2) && '\n' !in CStr(d1.cadena)
    requires '|' !in showFloat(d2.dato2) && '\n' !in CStr(d2.cadena)
    ensures var data := Encode(d1, showFloat) + Encode(d2, showFloat) + rest;
            var st := StreamState(data, 0, false, false);
            CanDecode(st) &&
            var r1 := Decode(st, init1, parseFloat);
            r1.record.dato1 == d1.dato1 && CStr(r1.record.cadena) == CStr(d1.cadena) &&
            r1.record.dato2 == parseFloat(showFloat(d1.dato2)).GetOr(init1.dato2) &&
            r1.after == st.(pos := |Encode(d1, showFloat)|) &&
            CanDecode(r1.after) &&
            var r2 := Decode(r1.after, init2, parseFloat);
            r2.record.dato1 == d2.dato1 && CStr(r2.record.cadena) == CStr(d2.cadena) &&
            r2.record.dato2 == parseFloat(showFloat(d2.dato2)).GetOr(init2.dato2) &&
            r2.after == st.(pos := |Encode(d1, showFloat)| + |Encode(d2, showFloat)|)
  {
    var l1, l2 := Encode(d1, showFloat), Encode(d2, showFloat);
    var data := l1 + l2 + rest;
    var st := StreamState(data, 0, false, false);
    assert data[0..|l1|] == l1;
    DecodeOfEncode(st, d1, init1, showFloat, parseFloat);
    var s1 := st.(pos := |l1|);
    assert data[|l1|..|l1| + |l2|] == l2;
    DecodeOfEncode(s1, d2, init2, showFloat, parseFloat);
  }
}
