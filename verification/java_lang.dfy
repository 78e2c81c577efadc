/**
 * The parts of the Java platform every other module talks about: fixed-width
 * integers, UTF-16 strings, nullable references and the exceptions the core
 * raises or catches.
 */
module JavaLang {

  /** An unsigned byte as it travels on the wire. */
  type uint8 = x: int | 0 <= x < 0x100

  /** Java's signed primitive types. */
  type int8 = x: int | -0x80 <= x < 0x80
  type int16 = x: int | -0x8000 <= x < 0x8000
  type int32 = x: int | -0x8000_0000 <= x < 0x8000_0000
  type int64 = x: int | -0x8000_0000_0000_0000 <= x < 0x8000_0000_0000_0000

  /** A Java `char`: one UTF-16 code unit (surrogates included). */
  type JChar = x: int | 0 <= x < 0x1_0000

  /** A Java `String`: a sequence of UTF-16 code units. */
  type JString = seq<JChar>

  /** A nullable Java reference; `None` is `null`. */
  datatype Option<+T> = None | Some(value: T)

  /** The exceptions the core throws, catches or lets through. */
  datatype Exception =
    | EOFException
    | UTFDataFormatException
    | IOException                       // the plain `new IOException(...)`
    | NullPointerException
    | NegativeArraySizeException
    | InvalidListenerException
    | PluginMessageEventException
    | ConcurrentModificationException
    | NoSuchMethodException             // `getConstructor()` finds no public no-argument constructor
    | InstantiationException            // `newInstance()` of an abstract class

  /** `EOFException` and `UTFDataFormatException` extend `IOException`. */
  predicate IsIOException(e: Exception) {
    e.EOFException? || e.UTFDataFormatException? || e.IOException?
  }

  /** A call that either returns a value or throws. */
  datatype Result<+T> = Ok(value: T) | Thrown(exception: Exception)

  /** A Java string literal written with ASCII characters. */
  function Ascii(s: string): (r: JString)
    requires forall i | 0 <= i < |s| :: s[i] < 128 as char
    ensures |r| == |s|
    ensures forall i | 0 <= i < |s| :: r[i] == s[i] as int
  {
    seq(|s|, i requires 0 <= i < |s| => s[i] as int)
  }
}
