# Plain-text record serialiser, modelled in Dafny

`ejemplos/ficheros/serializador_textoplano.cpp` stores records of the fixed
struct `datos` (`int32_t dato1`, `float dato2`, `char cadena[20]`) as text
lines in a file and reads them back:

- `serializador_escritura_struct` writes one record as
  `dato1|dato2|cadena` and a newline.
- `deserializador_lectura_struct` reads three tokens with `std::getline`:
  up to a `|`, up to the next `|`, and up to a newline. It stores them in
  slots 0, 1 and 3 of a local `std::string datos_str[4]`.
- `convertir_tipos_chars` rebuilds the record. It parses slot 0 with
  `std::from_chars`, parses slot 1 as a float, parses slot 2 into an
  unused `uint16_t`, and copies slot 3 into `cadena` with
  `snprintf(cadena, length + 1, "%s", ...)`.

The model has these modules:

- `Record` (record.dfy): the `Datos` datatype (`cadena` is the whole
  20-character buffer), `int32`, and `CStr`, the C string held in a
  buffer.
- `FieldConverter` (converter.dfy): decimal rendering (`Decimal`), the
  `from_chars` integer parse (`FromChars`) with its three outcomes, the
  `snprintf` copy (`SnprintfStr`) and `ConvertChars`.
- `Encoder` (encoder.dfy): `Encode`, the line for one record, and an
  `OutputStream` class whose `Serialize` method appends that line.
- `Decoder` (decoder.dfy):
  - `StreamState` holds the data, read position, eofbit and failbit.
  - `ReadUntil` specifies one `std::getline`.
  - The `InputStream` class has a `GetLine` method that scans one
    character at a time.
  - The `Deserialize` method fills the token array and converts it.
  - The pure functions `ReadTokens` and `Decode` specify what it does.
- `RoundTrip` (roundtrip.dfy): decoding an encoded line.
- `Scenarios` (scenarios.dfy): the program's own demo, and how the code
  behaves on a truncated line, a malformed number, an empty stream and a
  string that is too long.

How the model treats what is left undefined:

- **Floats.** `dato2` is a 32-bit pattern. The stream's float rendering
  (`showFloat`) and the float `from_chars` (`parseFloat`, where `None` is
  its error code) are function parameters.
- **Uninitialised memory.** `convertir_tipos_chars` starts from the
  uninitialised local `datos datos_obj`. The parameter `init` stands for
  that memory. A failed `from_chars` leaves the field at `init`'s value.
  The bytes of `cadena` after the copied terminator are `init`'s bytes.

The code reports no errors and does not truncate long strings:

- **No errors are reported.** The code ignores the results of `getline`
  and `from_chars`. A truncated line, a malformed number or an exhausted
  stream still produces a record. The lemmas `TruncatedLine`,
  `MalformedNumber` and `EmptyStream` show what that record holds.
- **Long strings overflow instead of being truncated.** The copy is given
  the token's own length plus one as the buffer size, so the whole C
  string of the token is written, with its terminator. When that C string
  has 20 or more characters it would write past `cadena`; it is not cut
  to 19 characters. A longer token whose C string is short (a terminator
  inside the token) still fits, because `%s` stops at that terminator.
  The model requires the written characters to fit (`FitsCadena`,
  `CanDecode`); `OversizedString` exhibits a line that does not fit and
  `EmbeddedTerminator` a long token that does.
- **A `|` inside the string is harmless.** The last token ends only at a
  newline. Of the record's own text, only a newline in the string or a
  `|` in the float's text moves a field boundary.

## Model

| member | source | states |
|---|---|---|
| `Record.CStr` | ejemplos/ficheros/serializador_textoplano.cpp:22 | the string read from a `char` buffer is the longest prefix with no terminator, and it is shorter than the buffer exactly when the buffer holds a terminator |
| `Record.CStrOfTerminated` | ejemplos/ficheros/serializador_textoplano.cpp:34 | characters followed by a terminator read back as exactly those characters, whatever follows |
| `FieldConverter.Digits` | ejemplos/ficheros/serializador_textoplano.cpp:22 | the decimal digits of a natural number are all digits, at least one, with no leading zero except for 0 itself |
| `FieldConverter.Decimal` | ejemplos/ficheros/serializador_textoplano.cpp:22 | the text an integer is written as is non-empty and contains no pipe character, no newline and no terminator; it starts with `-` exactly for a negative value |
| `FieldConverter.DigitRun` | ejemplos/ficheros/serializador_textoplano.cpp:28 | the parse's digit run is the longest prefix made only of digits; the character after it is not a digit |
| `FieldConverter.FromChars` | ejemplos/ficheros/serializador_textoplano.cpp:28 | `from_chars` gives invalid_argument exactly when no digit follows the optional `-`, and then matches nothing and leaves the target unchanged; otherwise it matches the longest numeral; its value is stored when it is in range, and result_out_of_range leaves the target unchanged |
| `FieldConverter.FromCharsInt32` | ejemplos/ficheros/serializador_textoplano.cpp:28 | the parse into `int32_t dato1` always leaves a value within the 32-bit range |
| `FieldConverter.SnprintfStr` | ejemplos/ficheros/serializador_textoplano.cpp:34 | when the characters it writes fit the buffer, `snprintf(buf, size, "%s", src)` leaves the buffer holding the C string of `src`, cut to `size - 1` characters, and keeps every character after the terminator; size 0 writes nothing |
| `FieldConverter.ConvertChars` | ejemplos/ficheros/serializador_textoplano.cpp:25-38 | the rebuilt record holds a terminated string equal to the C string of slot 3; `dato1` is the `from_chars` result of slot 0, or the uninitialised value on error; `dato2` is the float parse of slot 1, or the uninitialised value on error; the buffer past the terminator is untouched |
| `FieldConverter.DigitsValueOfDigits` | ejemplos/ficheros/serializador_textoplano.cpp:28 | reading back the decimal digits of a number gives that number |
| `FieldConverter.DigitRunOfDigits` | ejemplos/ficheros/serializador_textoplano.cpp:28 | the parse stops at the first non-digit: the digit run of digits followed by a non-digit is the digits |
| `FieldConverter.FromCharsOfDecimal` | ejemplos/ficheros/serializador_textoplano.cpp:28 | parsing a rendered integer, followed by any non-digit text, matches exactly the rendering; it yields the value when it is in range and result_out_of_range otherwise |
| `FieldConverter.Int32RoundTrip` | ejemplos/ficheros/serializador_textoplano.cpp:15 | every `int32_t` written in decimal parses back to itself with no error |
| `FieldConverter.FromCharsRejectsNonNumeral` | ejemplos/ficheros/serializador_textoplano.cpp:28 | a token that does not start with a digit (after an optional `-`) gives invalid_argument and leaves `dato1` unchanged |
| `FieldConverter.ConvertIgnoresLengthSlot` | ejemplos/ficheros/serializador_textoplano.cpp:31-32 | the token in slot 2, parsed into the unused `tam_cadena`, affects no field of the record |
| `FieldConverter.ConvertCopiesString` | ejemplos/ficheros/serializador_textoplano.cpp:34 | a string token that fits is copied whole: the record's string is the token |
| `Encoder.Encode` | ejemplos/ficheros/serializador_textoplano.cpp:22 | the line is the integer's decimal text, a pipe, the float's text, a pipe, the C string of `cadena` and a newline: its length is the three fields' plus three, the integer's text is closed by a pipe and the line by the newline; `DecodeOfEncode` is its inverse |
| `Encoder.EncodeIsOneLine` | ejemplos/ficheros/serializador_textoplano.cpp:22 | the encoded record ends with its only newline, and its first pipe character comes right after the integer's text |
| `Encoder.OutputStream.Serialize` | ejemplos/ficheros/serializador_textoplano.cpp:21-23 | writing a record appends exactly its line (integer, pipe, float text, pipe, string, newline) and nothing else |
| `Decoder.ReadUntil` | ejemplos/ficheros/serializador_textoplano.cpp:67 | `getline` on a good stream gives the characters up to the next delimiter, excluding it; it consumes the delimiter too; with no delimiter left it reads to the end and sets eofbit, plus failbit if nothing was read; on a stream that is not good it reads nothing and sets failbit |
| `Decoder.ReadTokens` | ejemplos/ficheros/serializador_textoplano.cpp:62-73 | the three reads fill slots 0, 1 and 3, and slot 2 stays empty |
| `Decoder.Decode` | ejemplos/ficheros/serializador_textoplano.cpp:62-81 | one decode always produces a record with a terminated string and leaves the stream's data unchanged |
| `Decoder.InputStream.GetLine` | ejemplos/ficheros/serializador_textoplano.cpp:67 | the character-by-character extraction gives the token and new stream state that `ReadUntil` specifies |
| `Decoder.Deserialize` | ejemplos/ficheros/serializador_textoplano.cpp:62-81 | filling the token array with three `getline` calls and converting it gives the record and stream state that `Decode` specifies |
| `RoundTrip.ReadUntilToken` | ejemplos/ficheros/serializador_textoplano.cpp:67-70 | when the next characters are a token and then the delimiter, the read gives exactly that token and moves past the delimiter |
| `RoundTrip.ReadTokensOfLine` | ejemplos/ficheros/serializador_textoplano.cpp:62-73 | on a good stream whose next line is a, pipe, b, pipe, c and a newline (no pipe in a or b, no newline in c), the reads give a, b and c, slot 2 stays empty, and the stream stays good just past the newline |
| `RoundTrip.ReadTokensOfEncode` | ejemplos/ficheros/serializador_textoplano.cpp:62-73 | the decoder's reads split an encoded line into the integer's text, the float's text and the string, keeping spaces; the stream stays good, just past the newline |
| `RoundTrip.DecodeOfEncode` | ejemplos/ficheros/serializador_textoplano.cpp:62-81 | decoding an encoded record gives back the same `dato1` and the same string; `dato2` is the float parse of its text; the cursor ends just past the record's newline; this needs only a string with no newline and a float text with no pipe character |
| `RoundTrip.DecodeTwoLines` | ejemplos/ficheros/serializador_textoplano.cpp:101-107 | after one decode the cursor is at the next line, so a second decode reads the second record back |
| `Scenarios.DemoLine1` | ejemplos/ficheros/serializador_textoplano.cpp:89-90 | `{23, 45.8, "prueba"}` is written as the line `23`, pipe, `45.8`, pipe, `prueba`, newline |
| `Scenarios.DemoLine2` | ejemplos/ficheros/serializador_textoplano.cpp:92-93 | `{30, 70.965, "test con espacios"}` is written as the line `30`, pipe, `70.965`, pipe, `test con espacios`, newline |
| `Scenarios.WriteAndReadBack` | ejemplos/ficheros/serializador_textoplano.cpp:86-109 | writing the two records and reading twice gives back 23 with `prueba` and 30 with `test con espacios`, spaces kept |
| `Scenarios.TruncatedLine` | ejemplos/ficheros/serializador_textoplano.cpp:67-73 | the input `23`, pipe, `45.8` (no third field, no newline) reports no error: it yields 23, the parsed float and an empty string, and leaves eofbit and failbit set |
| `Scenarios.MalformedNumber` | ejemplos/ficheros/serializador_textoplano.cpp:28 | the line `abc`, pipe, `45.8`, pipe, `x` leaves `dato1` uninitialised while the float and the string `x` are read |
| `Scenarios.EmptyStream` | ejemplos/ficheros/serializador_textoplano.cpp:62-81 | decoding an exhausted stream reports nothing: `dato1` stays uninitialised, the string is empty, and eofbit and failbit are set |
| `Scenarios.OversizedString` | ejemplos/ficheros/serializador_textoplano.cpp:34 | a 20-character string token with no terminator does not fit `cadena`, so the copy would overflow it |
| `Scenarios.EmbeddedTerminator` | ejemplos/ficheros/serializador_textoplano.cpp:34 | a 22-character string token with a terminator after `ab` fits `cadena`: the copy writes only `ab` and a terminator, and the record's string is `ab` |

## Left out

- Float text conversion of `dato2` (lines 22 and 29): this is floating-point formatting and parsing. The stream's rendering and `from_chars` for `float` are parameters, so `dato2` round-trips only as far as those two functions do.
- `convertir_tipos_stringstream` (lines 40-59): an alternative converter that the decoder does not call (line 78 is commented out).
- `main`'s file handling and console output (lines 83-113): opening and closing files and printing. The two writes and two reads serve as the `WriteAndReadBack` scenario, where the file's contents are passed from the output stream to the input stream.
- `WriteAndReadBack`: takes the two records' `char[20]` buffers as parameters holding `prueba` and `test con espacios`. It does not spell out the zero padding of the aggregate initialiser, because only the C string is ever read.
- Stream write failures (badbit), `getline`'s max_size limit, and the flushing of tied streams: I/O failure paths the code never checks.
- `ConvertChars` and `Deserialize`: require the string token's C string (the token up to its first terminator) to have at most 19 characters. For a longer one the code writes past `cadena`, which is undefined behaviour and has no model.
- Indeterminate values: the model does not treat reading uninitialised memory as undefined behaviour. It fixes that memory as the arbitrary parameter `init`.
- `ejemplos/getch/custom_getch/getch.cpp`, `ejemplos/string_view.cpp`, `ejemplos/ejemplo_array.cpp`: terminal input and library demos with no logic of their own.
