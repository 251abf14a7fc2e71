/** Small shared vocabulary: optional values, results with a message, and the
    character classes the two popups test for. */
module Common {

  datatype Option<+T> = None | Some(value: T)

  /** A computation that either yields a value or fails with a message
      (the message of the JavaScript `Error` it would throw). */
  datatype Result<+T> = Ok(value: T) | Err(message: string)

  /** The regular-expression class `\d` (ASCII digits only, no `u` flag). */
  predicate IsDigit(c: char) {
    '0' <= c <= '9'
  }

  predicate AllDigits(s: string) {
    forall i :: 0 <= i < |s| ==> IsDigit(s[i])
  }

  /** `s` begins with `prefix`. */
  predicate StartsWith(s: string, prefix: string) {
    |prefix| <= |s| && s[..|prefix|] == prefix
  }

  /** `String.prototype.includes`: `sub` occurs somewhere in `s`. */
  predicate Contains(s: string, sub: string) {
    StartsWith(s, sub) || (s != [] && Contains(s[1..], sub))
  }
}
