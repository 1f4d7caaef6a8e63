/** `deserializador_lectura_struct`: reads one record from an input text
    stream with three `std::getline` calls and converts the tokens. */
module Decoder {
  import opened Record
  import opened FieldConverter

  /** The state of an input text stream: its characters, the read
      position, and the eof and fail bits. */
  datatype StreamState = StreamState(data: seq<char>, pos: nat, eof: bool, fail: bool)

  predicate Valid(st: StreamState)
  {
    st.pos <= |st.data|
  }

  /** Neither eofbit nor failbit is set, so the next read is attempted. */
  predicate Good(st: StreamState)
  {
    !st.eof && !st.fail
  }

  /** The first index at or after `from` holding `c`, or `|s|` when there
      is none. */
  function IndexOf(s: seq<char>, from: nat, c: char): (j: nat)
    requires from <= |s|
    ensures from <= j <= |s|
    ensures forall k :: from <= k < j ==> s[k] != c
    ensures j < |s| ==> s[j] == c
    decreases |s| - from
  {
    if from == |s| || s[from] == c then from else IndexOf(s, from + 1, c)
  }

  datatype GetLineResult = GetLineResult(token: seq<char>, after: StreamState)

  /** `std::getline(stream, str, delim)` into an empty string. When the
      stream is not good nothing is read and failbit is set. Otherwise
      characters are extracted up to the next `delim`, which is extracted
      too but not stored; if the data ends first, eofbit is set, and
      failbit as well when nothing at all was extracted. */
  function ReadUntil(st: StreamState, delim: char): (r: GetLineResult)
    requires Valid(st)
    ensures Valid(r.after) && r.after.data == st.data
    ensures !Good(st) ==> r.token == [] && r.after == st.(fail := true)
    ensures Good(st) ==>
              st.pos + |r.token| <= |st.data| &&
              r.token == st.data[st.pos..st.pos + |r.token|] && delim !in r.token
    ensures Good(st) && st.pos + |r.token| < |st.data| ==>
              st.data[st.pos + |r.token|] == delim &&
              r.after == st.(pos := st.pos + |r.token| + 1)
    ensures Good(st) && st.pos + |r.token| == |st.data| ==>
              r.after == st.(pos := |st.data|, eof := true, fail := r.token == [])
  {
    if !Good(st) then GetLineResult([], st.(fail := true))
    else
      var j := IndexOf(st.data, st.pos, delim);
      if j < |st.data| then GetLineResult(st.data[st.pos..j], st.(pos := j + 1))
      else GetLineResult(st.data[st.pos..], st.(pos := |st.data|, eof := true, fail := st.pos == |st.data|))
  }

  datatype Tokens = Tokens(slots: seq<seq<char>>, after: StreamState)

  /** The token array `datos_str` after the three reads, and the stream
      afterwards. Slot 2 is never read into and stays empty. */
  function ReadTokens(st: StreamState): (r: Tokens)
    requires Valid(st)
    ensures Valid(r.after) && |r.slots| == 4 && r.slots[LengthSlot] == []
  {
    var r0 := ReadUntil(st, '|');
    var r1 := ReadUntil(r0.after, '|');
    var r3 := ReadUntil(r1.after, '\n');
    Tokens([r0.token, r1.token, [], r3.token], r3.after)
  }

  /** The string token fits `cadena`, which the copy demands. */
  predicate CanDecode(st: StreamState)
  {
    Valid(st) && FitsCadena(ReadTokens(st).slots[StringSlot])
  }

  datatype Decoded = Decoded(record: Datos, after: StreamState)

  /** One call of `deserializador_lectura_struct` on the stream state
      `st`; `init` holds the indeterminate contents of the converter's
      uninitialised local record. */
  function Decode(st: StreamState, init: Datos, parseFloat: seq<char> -> Option<Float32>): (r: Decoded)
    requires CanDecode(st) && |init.cadena| == Capacity
    ensures WellFormed(r.record) && Valid(r.after) && r.after.data == st.data
  {
    var t := ReadTokens(st);
    Decoded(ConvertChars(t.slots, init, parseFloat), t.after)
  }

  /** An input text stream (`std::ifstream`) over fixed contents. */
  class InputStream {
    const data: seq<char>
    var pos: nat
    var eofbit: bool
    var failbit: bool

    function State(): StreamState
      reads this
    {
      StreamState(data, pos, eofbit, failbit)
    }

    constructor (contents: seq<char>)
      ensures State() == StreamState(contents, 0, false, false)
    {
      data := contents;
      pos := 0;
      eofbit := false;
      failbit := false;
    }

    /** `std::getline(*this, token, delim)`, extracting one character at
        a time. */
    method GetLine(delim: char) returns (token: seq<char>)
      requires Valid(State())
      modifies this
      ensures ReadUntil(old(State()), delim) == GetLineResult(token, State())
    {
      token := [];
      if eofbit || failbit {
        failbit := true;
        return;
      }
      var start := pos;
      while pos < |data| && data[pos] != delim
        invariant start <= pos <= |data| && !eofbit && !failbit
        invariant token == data[start..pos]
        invariant forall k :: start <= k < pos ==> data[k] != delim
        decreases |data| - pos
      {
        token := token + [data[pos]];
        pos := pos + 1;
      }
      ghost var before := old(State());
      assert before == StreamState(data, start, false, false);
      var j := pos;
      assert j == IndexOf(data, start, delim);
      if pos < |data| {
        pos := pos + 1;
      } else {
        eofbit := true;
        failbit := pos == start;
        assert ReadUntil(before, delim) == GetLineResult(data[start..], State());
      }
    }
  }

  /** `deserializador_lectura_struct(fichero, datos_obj)`: the returned
      record is what is assigned to the out-parameter `datos_obj`. */
  method Deserialize(s: InputStream, init: Datos, parseFloat: seq<char> -> Option<Float32>)
    returns (d: Datos)
    requires CanDecode(s.State()) && |init.cadena| == Capacity
    modifies s
    ensures Decode(old(s.State()), init, parseFloat) == Decoded(d, s.State())
  {
    var datosStr := new seq<char>[4](_ => []);
    datosStr[IntSlot] := s.GetLine('|');
    datosStr[FloatSlot] := s.GetLine('|');
    datosStr[StringSlot] := s.GetLine('\n');
    d := ConvertChars(datosStr[..], init, parseFloat);
  }
}
