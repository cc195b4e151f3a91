/** JavaScript values, objects and exceptions as the handlers, services and models see them. */
module Js {

  datatype Option<+T> = None | Some(value: T)

  /** A JSON-compatible JavaScript value. Numbers are integers in this model. */
  datatype Value =
    | Undefined
    | Null
    | Bool(b: bool)
    | Num(n: int)
    | Str(s: string)
    | Object(fields: map<string, Value>)

  /** A plain object: a request body, a result row, a token payload or a response body. */
  type Obj = map<string, Value>

  /** Property access `o.key` on a plain object: a missing key reads as undefined. */
  function Get(o: Obj, key: string): Value {
    if key in o then o[key] else Undefined
  }

  /** Property access `v.key` on any value: only objects carry the properties of this model. */
  function Prop(v: Value, key: string): Value {
    if v.Object? then Get(v.fields, key) else Undefined
  }

  /** JavaScript truthiness: "", 0, false, null and undefined are the falsy values. */
  predicate Truthy(v: Value) {
    match v
    case Undefined => false
    case Null => false
    case Bool(b) => b
    case Num(n) => n != 0
    case Str(s) => s != ""
    case Object(_) => true
  }

  /** `v !== undefined && v !== null` */
  predicate Present(v: Value) {
    !v.Undefined? && !v.Null?
  }

  // ---------------------------------------------------------------------
  // parseInt(x) with the radix omitted, as far as isNaN of its result goes
  // ---------------------------------------------------------------------

  /** StrWhiteSpaceChar of ECMAScript: the white space and line terminators parseInt skips. */
  predicate IsStrWhiteSpace(c: char) {
    var n := c as int;
    n == 0x09 || n == 0x0A || n == 0x0B || n == 0x0C || n == 0x0D || n == 0x20 || n == 0xA0 ||
    n == 0x1680 || (0x2000 <= n <= 0x200A) || n == 0x2028 || n == 0x2029 || n == 0x202F ||
    n == 0x205F || n == 0x3000 || n == 0xFEFF
  }

  function TrimStart(s: string): (r: string)
    ensures |r| <= |s| && r == s[|s| - |r|..]
    ensures r == "" || !IsStrWhiteSpace(r[0])
  {
    if |s| > 0 && IsStrWhiteSpace(s[0]) then TrimStart(s[1..]) else s
  }

  predicate IsDigit(c: char) {
    '0' <= c <= '9'
  }

  predicate IsHexDigit(c: char) {
    IsDigit(c) || 'a' <= c <= 'f' || 'A' <= c <= 'F'
  }

  /** `isNaN(parseInt(s))` for a string: after white space and one sign, a "0x" prefix asks for a hex digit, anything else for a decimal digit. */
  predicate StringParseIntIsNaN(s: string) {
    TrimmedIsNaN(TrimStart(s))
  }

  /** `StringParseIntIsNaN` once the leading white space is gone. */
  predicate TrimmedIsNaN(t: string) {
    var u := if |t| > 0 && (t[0] == '+' || t[0] == '-') then t[1..] else t;
    if |u| >= 2 && u[0] == '0' && (u[1] == 'x' || u[1] == 'X') then !(|u| >= 3 && IsHexDigit(u[2]))
    else !(|u| >= 1 && IsDigit(u[0]))
  }

  /**
   * `isNaN(parseInt(v))`: parseInt converts its argument with String(v) first, so an integer never gives NaN and
   * undefined, null, true and false ("undefined", "null", "true", "false") always do; an object gives
   * "[object Object]", which is NaN too.
   */
  predicate ParseIntIsNaN(v: Value) {
    match v
    case Str(s) => StringParseIntIsNaN(s)
    case Num(_) => false
    case _ => true
  }

  // ---------------------------------------------------------------------
  // Strings
  // ---------------------------------------------------------------------

  predicate StartsWith(s: string, p: string) {
    |p| <= |s| && s[..|p|] == p
  }

  /** `s.includes(p)` */
  predicate Contains(s: string, p: string)
    decreases |s|
  {
    StartsWith(s, p) || (|s| > 0 && Contains(s[1..], p))
  }

  lemma PrefixChars(s: string, p: string, c: char)
    ensures StartsWith(s, p) && c in p ==> c in s
  {
    if StartsWith(s, p) && c in p {
      var i :| 0 <= i < |p| && p[i] == c;
      assert s[i] == c;
    }
  }

  /** A string that lacks a character of the pattern cannot contain the pattern. */
  lemma {:induction false} ContainsNeedsChar(s: string, p: string, c: char)
    requires c in p && c !in s
    ensures !Contains(s, p)
    decreases |s|
  {
    PrefixChars(s, p, c);
    if |s| > 0 {
      assert forall j :: 0 <= j < |s[1..]| ==> s[1..][j] == s[j + 1];
      ContainsNeedsChar(s[1..], p, c);
    }
  }

  /** A string contains every infix of it. */
  lemma {:induction false} ContainsInfix(a: string, p: string, b: string)
    ensures Contains(a + p + b, p)
    decreases |a|
  {
    if |a| == 0 {
      assert (a + p + b)[..|p|] == p;
    } else {
      assert (a + p + b)[1..] == a[1..] + p + b;
      ContainsInfix(a[1..], p, b);
    }
  }

  /** `toLowerCase` on one character: ASCII and Latin-1 capitals (not U+00D7) map to their small letters. */
  function LowerChar(c: char): char {
    if 'A' <= c <= 'Z' || (0xC0 <= c as int <= 0xDE && c as int != 0xD7) then (c as int + 32) as char else c
  }

  /** `s.toLowerCase()` */
  function Lower(s: string): (r: string)
    ensures |r| == |s|
    ensures forall i :: 0 <= i < |s| ==> r[i] == LowerChar(s[i])
  {
    seq(|s|, i requires 0 <= i < |s| => LowerChar(s[i]))
  }

  // ---------------------------------------------------------------------
  // Exceptions and the results of async functions
  // ---------------------------------------------------------------------

  datatype ErrorKind = PlainError | TypeError

  /** A thrown `Error`: its class, its `message` and its `cause` (absent unless `{ cause: n }` was given). */
  datatype Exception = Exception(kind: ErrorKind, message: string, cause: Option<int>)

  /** `new Error(message, { cause: status })` */
  function Fail(message: string, status: int): Exception {
    Exception(PlainError, message, Some(status))
  }

  /** An error raised by the database driver or another library: no `cause`. */
  function Raise(message: string): Exception {
    Exception(PlainError, message, None)
  }

  /** What an async function settles to: a value, or a thrown exception. */
  datatype Outcome<+T> = Returned(value: T) | Threw(error: Exception)

  // ---------------------------------------------------------------------
  // Mutable objects and arrays shared between caller and callee
  // ---------------------------------------------------------------------

  /** A request body object that a service may rewrite in place. */
  class JsObject {
    var props: Obj

    constructor (props: Obj)
      ensures this.props == props
    {
      this.props := props;
    }
  }

  /** A JavaScript array that a callee may `push` onto. */
  class JsArray {
    var elems: seq<Value>

    constructor (elems: seq<Value>)
      ensures this.elems == elems
    {
      this.elems := elems;
    }

    method Push(v: Value)
      modifies this
      ensures elems == old(elems) + [v]
    {
      elems := elems + [v];
    }
  }
}
