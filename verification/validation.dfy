/** The part of the schema-validation library the application relies on: a
    JSON request body, validation issues (path and message), and the checks
    `z.string()` and `z.string().min(n, message)`. All issues of an object
    are collected before the parse fails; the error a handler reports carries
    that issue list. */
module Validation {
  import opened Text

  /** A JSON value as far as a string field cares: a string, or anything else
      (number, boolean, null, array, object). */
  datatype JsonValue = JString(str: string) | JNonString

  type JsonObject = map<string, JsonValue>

  datatype Issue = Issue(path: string, message: string)

  /** Outcome of `schema.parse`: the parsed value, or the thrown error. */
  datatype Parsed<T> = Parsed(value: T) | Invalid(issues: seq<Issue>)

  /** JavaScript's `s.length`: UTF-16 code units, so a code point outside the
      Basic Multilingual Plane counts twice. */
  function Utf16Length(s: string): (n: nat)
    ensures n >= |s|
    ensures n == 0 <==> |s| == 0
  {
    if |s| == 0 then 0 else (if s[0] as int > 0xFFFF then 2 else 1) + Utf16Length(s[1..])
  }

  /** Appending one character adds one code unit, or two for a character
      outside the Basic Multilingual Plane (a surrogate pair). */
  lemma {:induction false} Utf16LengthAppend(s: string, c: char)
    ensures Utf16Length(s + [c]) == Utf16Length(s) + (if c as int > 0xFFFF then 2 else 1)
  {
    if |s| == 0 {
      assert s + [c] == [c];
      assert [c][1..] == [];
    } else {
      assert (s + [c])[0] == s[0] && (s + [c])[1..] == s[1..] + [c];
      Utf16LengthAppend(s[1..], c);
    }
  }

  /** `.min(n, message)` on a value that is already a string. */
  function MinLength(path: string, value: string, n: nat, message: string): (issues: seq<Issue>)
    ensures issues == [] <==> Utf16Length(value) >= n
    ensures forall i :: 0 <= i < |issues| ==> issues[i] == Issue(path, message)
  {
    if Utf16Length(value) < n then [Issue(path, message)] else []
  }

  /** Every issue reported under `path` carries `message`. */
  predicate OnlyMessageAt(issues: seq<Issue>, path: string, message: string) {
    forall i :: 0 <= i < |issues| && issues[i].path == path ==> issues[i].message == message
  }

  lemma OnlyMessageAtConcat(a: seq<Issue>, b: seq<Issue>, path: string, message: string)
    requires OnlyMessageAt(a, path, message) && OnlyMessageAt(b, path, message)
    ensures OnlyMessageAt(a + b, path, message)
  {
    forall i | 0 <= i < |a + b| && (a + b)[i].path == path ensures (a + b)[i].message == message {
      if i >= |a| {
        assert (a + b)[i] == b[i - |a|];
      }
    }
  }

  predicate IsStringField(body: JsonObject, key: string) {
    key in body && body[key].JString?
  }

  /** A required `z.string()` field of an object schema. */
  function StringField(body: JsonObject, key: string): (issues: seq<Issue>)
    ensures issues == [] <==> IsStringField(body, key)
    ensures forall i :: 0 <= i < |issues| ==> issues[i].path == key
  {
    if key !in body then [Issue(key, "Required")]
    else if body[key].JNonString? then [Issue(key, "Expected string")]
    else []
  }

  predicate StringAtLeast(body: JsonObject, key: string, n: nat) {
    IsStringField(body, key) && Utf16Length(body[key].str) >= n
  }

  /** A required `z.string().min(n, message)` field of an object schema. */
  function MinLengthField(body: JsonObject, key: string, n: nat, message: string): (issues: seq<Issue>)
    ensures issues == [] <==> StringAtLeast(body, key, n)
    ensures forall i :: 0 <= i < |issues| ==> issues[i].path == key
  {
    if !IsStringField(body, key) then StringField(body, key)
    else MinLength(key, body[key].str, n, message)
  }
}
