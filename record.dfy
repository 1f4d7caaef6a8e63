/** The fixed-schema record `datos`: a 32-bit integer, a single-precision
    float and a `char[20]` buffer holding a NUL-terminated C string. */
module Record {

  /** Size of the `cadena` buffer, terminator included. */
  const Capacity: nat := 20

  /** The C string terminator. */
  const NUL: char := '\0'

  newtype int32 = x: int | -0x8000_0000 <= x < 0x8000_0000

  /** The bit pattern of a single-precision float. Its text rendering and
      parsing are not modelled; operations that need them take them as
      parameters. */
  type Float32 = bv32

  datatype Option<T> = None | Some(value: T) {
    /** The value held, or `default` for `None`. */
    function GetOr(default: T): (v: T)
      ensures Some? ==> v == value
      ensures None? ==> v == default
    {
      match this
      case Some(x) => x
      case None => default
    }
  }

  /** One record. `cadena` is the whole character buffer, so it may hold
      arbitrary characters after its terminator. */
  datatype Datos = Datos(dato1: int32, dato2: Float32, cadena: seq<char>)

  /** The buffer has the declared size and holds a terminated C string,
      which is what writing `cadena` as a `char*` demands. */
  predicate WellFormed(d: Datos)
  {
    |d.cadena| == Capacity && NUL in d.cadena
  }

  /** The C string stored in a character buffer: every character before
      the first terminator (all of them if there is none). */
  function CStr(s: seq<char>): (r: seq<char>)
    ensures |r| <= |s| && r == s[..|r|]
    ensures NUL !in r
    ensures |r| < |s| <==> NUL in s
    ensures |r| < |s| ==> s[|r|] == NUL
  {
    if s == [] || s[0] == NUL then [] else [s[0]] + CStr(s[1..])
  }

  /** Characters with no terminator are their own C string. */
  lemma CStrOfPlain(t: seq<char>)
    requires NUL !in t
    ensures CStr(t) == t
  {
  }

  /** A buffer whose characters are `t`, then a terminator, then anything
      reads back as exactly `t`. */
  lemma {:induction false} CStrOfTerminated(t: seq<char>, tail: seq<char>)
    requires NUL !in t
    ensures CStr(t + [NUL] + tail) == t
  {
    if t != [] {
      assert (t + [NUL] + tail)[1..] == t[1..] + [NUL] + tail;
      CStrOfTerminated(t[1..], tail);
    }
  }
}
