/** `validate_stream` of src/core/util.rs: the check applied to stream names
    given on the command line. */
module Util {
  import opened Wrappers

  const InvalidStreamName: string := "Stream names can only contain letters, numbers, '-' or '_'"

  /** `char::is_ascii_alphanumeric`. */
  predicate IsAsciiAlphanumeric(c: char) {
    ('a' <= c <= 'z') || ('A' <= c <= 'Z') || ('0' <= c <= '9')
  }

  predicate IsStreamChar(c: char) {
    IsAsciiAlphanumeric(c) || c == '-' || c == '_'
  }

  /** `s.chars().all(..)`: true for the empty string. */
  function AllStreamChars(s: string): (b: bool)
    ensures b <==> forall i :: 0 <= i < |s| ==> IsStreamChar(s[i])
  {
    if s == [] then true
    else IsStreamChar(s[0]) && AllStreamChars(s[1..])
  }

  /** Accepts exactly the names made of ASCII letters, digits, `-` and `_`,
      returning the name itself; rejects every other with a fixed message. */
  function ValidateStream(s: string): (r: Result<string, string>)
    ensures r.Success? <==> forall i :: 0 <= i < |s| ==> IsStreamChar(s[i])
    ensures r.Success? ==> r.value == s
    ensures r.Failure? ==> r.error == InvalidStreamName
  {
    if AllStreamChars(s) then Success(s) else Failure(InvalidStreamName)
  }

  /** The empty name passes. */
  lemma EmptyStreamNameAccepted()
    ensures ValidateStream("") == Success("")
  {
  }

  /** A valid name holds no path separator and no dot, so it names at most
      one directory entry (none for the empty name) and is never `.` or `..`. */
  lemma ValidNameIsOneComponent(s: string)
    requires ValidateStream(s).Success?
    ensures '/' !in s && '.' !in s
  {
  }
}
