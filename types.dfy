/** Values shared by every part of the fixture loader: bytes, the
    failure-compatible wrappers and the loader's error taxonomy. */
module Types {

  /** A Go `byte`. */
  newtype byte = b: int | 0 <= b < 256

  type bytes = seq<byte>

  datatype Option<+T> = None | Some(value: T)

  datatype Result<+T, +E> = Ok(value: T) | Err(error: E)

  /** The bytes of a string every character of which is 7-bit ASCII, as
      Go's `[]byte(s)` gives them for such a string. */
  function AsciiBytes(s: string): (r: bytes)
    requires forall i :: 0 <= i < |s| ==> s[i] < 128 as char
    ensures |r| == |s|
    ensures forall i :: 0 <= i < |s| ==> r[i] as int == s[i] as int
  {
    seq(|s|, i requires 0 <= i < |s| => s[i] as int as byte)
  }

  /** The errors the loader can return. The formatted message text of the
      source is not modelled; each case keeps the values the message names. */
  datatype Error =
    | FileReadError(path: string, reason: string)
      // a fixture file could not be read
    | InvalidJson(content: bytes, reason: string)
      // content is neither an array of JSON objects nor one JSON object;
      // `reason` is the decoding error of the single-object attempt
    | InvalidFixtureData(fileName: string, cause: Error)
      // Load's wrapping of the content error, naming the fixture file
    | TransportError(reason: string)
      // the HTTP client failed; passed on unchanged
    | FixtureRejected(fileName: string)
      // a single-document request was answered with neither 200 nor 201
}
