/** The pieces of JavaScript and Prisma value semantics that the handlers rely on:
    request-body fields that may be undefined, null or a value, truthiness, `trim()`,
    `toUpperCase()`, and Prisma's rule that an undefined field in `data` is not written. */
module Js {

  datatype Option<T> = None | Some(value: T)

  /** Success value or an error message (a thrown `Error` that a caller catches). */
  datatype Result<T> = Ok(value: T) | Err(message: string)

  /** One field of a parsed JSON request body. */
  datatype Field<T> = Undefined | Null | Value(v: T)

  /** `!!x` for a string field: only a non-empty string is truthy. */
  predicate Truthy(f: Field<string>)
  {
    f.Value? && f.v != ""
  }

  /** `s || fallback` for a string. */
  function Or(s: string, fallback: string): (r: string)
    ensures s != "" ==> r == s
    ensures s == "" ==> r == fallback
  {
    if s != "" then s else fallback
  }

  /** A thrown `Error` object: its `name` and its `message`. An object is truthy
      whatever it holds, so `e || fallback` is always `e`. */
  datatype ErrorObject = ErrorObject(name: string, message: string)

  /** `new Error(text)`. */
  function NewError(text: string): ErrorObject
  {
    ErrorObject("Error", text)
  }

  /** `String(e)`, which `Error.prototype.toString` gives: the name and the message
      joined by ": ", either one alone when the other is empty. */
  function ErrorString(e: ErrorObject): (s: string)
    ensures e.name == "" ==> s == e.message
    ensures e.name != "" ==> |s| >= |e.name| && s[..|e.name|] == e.name
    ensures e.message != "" ==> |s| >= |e.message| && s[|s| - |e.message|..] == e.message
    ensures e.name != "" && e.message != "" ==> s == e.name + ": " + e.message
  {
    if e.name == "" then e.message
    else if e.message == "" then e.name
    else e.name + ": " + e.message
  }

  /** An error built by `new Error(text)` never converts to its bare text: the
      conversion starts with "Error". */
  lemma NewErrorStringPrefixed(text: string)
    ensures ErrorString(NewError(text)) == if text == "" then "Error" else "Error: " + text
    ensures ErrorString(NewError(text)) != text
  {
    if text != "" {
      assert |ErrorString(NewError(text))| == |text| + 7;
    }
  }

  /** `x == null` (loose equality): true for both null and undefined. */
  predicate Nullish<T>(f: Field<T>)
  {
    !f.Value?
  }

  /** What Prisma stores for a column when `data` carries `f`: an undefined field
      leaves the column as it was, null clears it, a value overwrites it. */
  function Write<T>(current: Option<T>, f: Field<T>): (r: Option<T>)
    ensures f.Undefined? ==> r == current
    ensures f.Null? ==> r == None
    ensures f.Value? ==> r == Some(f.v)
  {
    match f
    case Undefined => current
    case Null => None
    case Value(v) => Some(v)
  }

  /** The characters that JavaScript's `\s` and `String.prototype.trim` treat as
      white space: WhiteSpace and LineTerminator of ECMA-262. */
  predicate IsWhitespace(c: char)
  {
    c == '\t' || c == '\n' || c == '\U{B}' || c == '\U{C}' || c == '\r' || c == ' ' ||
    c == '\U{A0}' || c == '\U{1680}' || ('\U{2000}' <= c <= '\U{200A}') ||
    c == '\U{2028}' || c == '\U{2029}' || c == '\U{202F}' || c == '\U{205F}' ||
    c == '\U{3000}' || c == '\U{FEFF}'
  }

  predicate AllWhitespace(s: string)
  {
    forall i | 0 <= i < |s| :: IsWhitespace(s[i])
  }

  /** Drops leading white space. */
  function TrimStart(s: string): (r: string)
    ensures |r| <= |s| && r == s[|s| - |r|..]
    ensures AllWhitespace(s[..|s| - |r|])
    ensures r == [] || !IsWhitespace(r[0])
  {
    if s != [] && IsWhitespace(s[0]) then TrimStart(s[1..]) else s
  }

  /** Drops trailing white space. */
  function TrimEnd(s: string): (r: string)
    ensures |r| <= |s| && r == s[..|r|]
    ensures AllWhitespace(s[|r|..])
    ensures r == [] || !IsWhitespace(r[|r| - 1])
  {
    if s != [] && IsWhitespace(s[|s| - 1]) then TrimEnd(s[..|s| - 1]) else s
  }

  /** `s.trim()`. */
  function Trim(s: string): (r: string)
    ensures r == [] <==> AllWhitespace(s)
  {
    var t := TrimStart(s);
    assert s == s[..|s| - |t|] + t;
    TrimEnd(t)
  }

  /** `!x || x.trim() === ""`: the way the OTP handlers decide that a contact field
      was not given. */
  predicate Blank(f: Field<string>)
  {
    !Truthy(f) || Trim(f.v) == ""
  }

  /** `toUpperCase` on one character. ASCII letters are mapped, and so are the two
      other lower-case letters whose upper case is an ASCII letter
      (U+0131 dotless i and U+017F long s); every other character is kept. */
  function ToUpperChar(c: char): (u: char)
    ensures !('a' <= u <= 'z')
    ensures 'A' <= u <= 'Z' ==> ('A' <= c <= 'Z' || 'a' <= c <= 'z' || c == '\U{131}' || c == '\U{17F}')
  {
    if 'a' <= c <= 'z' then (c as int - 32) as char
    else if c == '\U{131}' then 'I'
    else if c == '\U{17F}' then 'S'
    else c
  }

  /** `s.toUpperCase()`, character by character as ToUpperChar says. */
  function ToUpper(s: string): (r: string)
    ensures |r| == |s|
    ensures forall i | 0 <= i < |r| :: !('a' <= r[i] <= 'z')
  {
    if s == [] then [] else [ToUpperChar(s[0])] + ToUpper(s[1..])
  }

  /** A string without letters to map is its own upper case. */
  lemma {:induction false} UpperUnchanged(s: string)
    requires forall i | 0 <= i < |s| :: ToUpperChar(s[i]) == s[i]
    ensures ToUpper(s) == s
  {
    if s != [] {
      UpperUnchanged(s[1..]);
    }
  }

  lemma {:induction false} ToUpperIdempotent(s: string)
    ensures ToUpper(ToUpper(s)) == ToUpper(s)
  {
    if s != [] {
      ToUpperIdempotent(s[1..]);
      assert ToUpper(s)[1..] == ToUpper(s[1..]);
    }
  }
}
