/** `serializador_escritura_struct`: one record becomes one text line
    `dato1|dato2|cadena` followed by a newline. */
module Encoder {
  import opened Record
  import opened FieldConverter

  /** The line written for `d`. The float's text is whatever `showFloat`
      (the stream's rendering of a `float`) gives; `cadena` is written as a
      C string, up to its terminator. The line is as long as its three
      fields plus two separators and the newline; the integer's text is
      closed by a `|` and the line by a newline. */
  function Encode(d: Datos, showFloat: Float32 -> seq<char>): (line: seq<char>)
    requires WellFormed(d)
    ensures |line| == |Decimal(d.dato1 as int)| + |showFloat(d.dato2)| + |CStr(d.cadena)| + 3
    ensures line[|Decimal(d.dato1 as int)|] == '|' && line[|line| - 1] == '\n'
  {
    Decimal(d.dato1 as int) + "|" + showFloat(d.dato2) + "|" + CStr(d.cadena) + "\n"
  }

  /** The shape of `a|b|c` followed by a newline: `a` then a `|` open
      it, and a newline occurs only at its end when none of `a`, `b`, `c`
      holds one. */
  lemma LineShape(a: seq<char>, b: seq<char>, c: seq<char>)
    requires '\n' !in a && '\n' !in b && '\n' !in c
    ensures var line := a + "|" + b + "|" + c + "\n";
            line[|line| - 1] == '\n' && '\n' !in line[..|line| - 1] &&
            line[..|a|] == a && line[|a|] == '|'
  {
    var line := a + "|" + b + "|" + c + "\n";
    assert line == a + ("|" + b + "|" + c + "\n");
    assert line[..|line| - 1] == a + "|" + b + "|" + c;
  }

  /** The line ends with its only newline, as long as neither the float's
      text nor the string has one, and the first `|` closes the integer's
      text. */
  lemma EncodeIsOneLine(d: Datos, showFloat: Float32 -> seq<char>)
    requires WellFormed(d) && '\n' !in showFloat(d.dato2) && '\n' !in CStr(d.cadena)
    ensures var line := Encode(d, showFloat);
            var n := |Decimal(d.dato1 as int)|;
            line[|line| - 1] == '\n' && '\n' !in line[..|line| - 1] &&
            line[..n] == Decimal(d.dato1 as int) && line[n] == '|' && '|' !in line[..n]
  {
    LineShape(Decimal(d.dato1 as int), showFloat(d.dato2), CStr(d.cadena));
  }

  /** An output text stream (`std::ofstream`): the characters written so
      far. */
  class OutputStream {
    var written: seq<char>

    constructor ()
      ensures written == []
    {
      written := [];
    }

    /** Writes the record with the chain of `operator<<` calls: the
        integer, a `|`, the float, a `|`, the C string, then `'\n'`. */
    method Serialize(d: Datos, showFloat: Float32 -> seq<char>)
      requires WellFormed(d)
      modifies this
      ensures written == old(written) + Encode(d, showFloat)
    {
      written := written + Decimal(d.dato1 as int);
      written := written + "|";
      written := written + showFloat(d.dato2);
      written := written + "|";
      written := written + CStr(d.cadena);
      written := written + "\n";
    }
  }
}
