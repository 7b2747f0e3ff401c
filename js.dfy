/** JavaScript runtime behaviour that the routes depend on: the values a parsed
    JSON body yields, truthiness, `Math.round`, the range of `Date`, and the
    three string operations applied to emotion labels (`trim`, `toUpperCase`,
    `toLowerCase`). */
module Js {

  datatype Option<T> = None | Some(value: T)

  /** A field of a parsed JSON body as a route reads it after destructuring;
      a missing key reads as Undefined. */
  datatype Value = Undefined | Null | Bool(b: bool) | Num(n: real) | Str(s: string)

  /** The body of a request: `req.json()` either throws, yields `null`, or
      yields an object whose fields the routes destructure. Fields holding
      identifiers are strings or absent. */
  datatype Body = Unparseable | JsonNull | Json(fields: Payload)

  datatype Payload = Payload(
    deviceId: Option<string>,
    correlationId: Option<string>,
    timestamp: Value,
    heartRate: Value,
    spO2: Value,
    emotion: Value,
    confidence: Value,
    source: Option<string>)

  /** The object `{}` that `body ?? {}` substitutes for a `null` body. */
  const EmptyPayload := Payload(None, None, Undefined, Undefined, Undefined, Undefined, Undefined, None)

  /** What a request reads from its host: the clock, `new Date(string)` and
      `Number(string)`; a parse gives None where JavaScript gives an invalid
      date or NaN. */
  datatype Runtime = Runtime(
    now: int,
    parseDate: string -> Option<int>,
    parseNumber: string -> Option<real>)

  /** JavaScript truthiness of a value (`if (v)`). */
  predicate Truthy(v: Value) {
    match v
    case Bool(b) => b
    case Num(n) => n != 0.0
    case Str(s) => s != ""
    case _ => false
  }

  /** Truthiness of a string that may be null or undefined. */
  predicate TruthyText(s: Option<string>) {
    s.Some? && s.value != ""
  }

  /** `Math.round`: the nearest integer, halves rounded toward +infinity. */
  function Round(x: real): (r: int)
    ensures x - 0.5 < r as real <= x + 0.5
  {
    (x + 0.5).Floor
  }

  /** Truncation toward zero, as `new Date(x)` applies to its argument. */
  function Truncate(x: real): (r: int)
    ensures 0.0 <= x ==> 0 <= r && r as real <= x < r as real + 1.0
    ensures x < 0.0 ==> r <= 0 && r as real - 1.0 < x <= r as real
  {
    if x >= 0.0 then x.Floor else -((-x).Floor)
  }

  /** The largest magnitude of a valid time value, in milliseconds. */
  const MaxTimeMs: int := 8_640_000_000_000_000

  /** `new Date(x)` for a number x, as epoch milliseconds; None is the invalid date. */
  function DateOfNumber(x: real): (r: Option<int>)
    ensures r.Some? <==> -(MaxTimeMs as real) <= x <= MaxTimeMs as real
    ensures r.Some? ==> r.value == Truncate(x) && -MaxTimeMs <= r.value <= MaxTimeMs
  {
    if -(MaxTimeMs as real) <= x <= MaxTimeMs as real then Some(Truncate(x)) else None
  }

  /** The property names a plain object inherits from `Object.prototype`;
      `obj[k]` on an object without an own `k` yields a function (or, for
      `__proto__`, the prototype object) instead of undefined. */
  const ObjectPrototypeKeys: set<string> := {
    "constructor", "__proto__", "__defineGetter__", "__defineSetter__",
    "__lookupGetter__", "__lookupSetter__", "hasOwnProperty", "isPrototypeOf",
    "propertyIsEnumerable", "toLocaleString", "toString", "valueOf"}

  /** No inherited name starts with a space. */
  lemma PrototypeKeysUnpadded(k: string)
    requires k != [] && k[0] == ' '
    ensures k !in ObjectPrototypeKeys
  {
  }

  /** The characters `String.prototype.trim` removes: WhiteSpace and LineTerminator. */
  predicate IsSpace(c: char) {
    c == '\t' || c == '\n' || c == '\U{000B}' || c == '\U{000C}' || c == '\r' || c == ' '
    || c == '\U{00A0}' || c == '\U{1680}' || ('\U{2000}' <= c <= '\U{200A}')
    || c == '\U{2028}' || c == '\U{2029}' || c == '\U{202F}' || c == '\U{205F}'
    || c == '\U{3000}' || c == '\U{FEFF}'
  }

  predicate AllSpace(s: string) {
    forall i :: 0 <= i < |s| ==> IsSpace(s[i])
  }

  function TrimStart(s: string): string {
    if s != [] && IsSpace(s[0]) then TrimStart(s[1..]) else s
  }

  function TrimEnd(s: string): string {
    if s != [] && IsSpace(s[|s| - 1]) then TrimEnd(s[..|s| - 1]) else s
  }

  function Trim(s: string): string {
    TrimEnd(TrimStart(s))
  }

  /** `toUpperCase` of one character, exact on every character whose upper-case
      form is all ASCII (among them the expanding `ß`, `ſ`, `ı` and the Latin
      ligatures). Any other character is kept: its JavaScript upper-case form
      contains a non-ASCII character, as it does itself, so neither can match
      the ASCII labels compared against. */
  function UpperChar(c: char): string {
    if 'a' <= c <= 'z' then [(c as int - 32) as char]
    else if c == '\U{00DF}' then "SS"
    else if c == '\U{017F}' then "S"
    else if c == '\U{0131}' then "I"
    else if c == '\U{FB00}' then "FF"
    else if c == '\U{FB01}' then "FI"
    else if c == '\U{FB02}' then "FL"
    else if c == '\U{FB03}' then "FFI"
    else if c == '\U{FB04}' then "FFL"
    else if c == '\U{FB05}' || c == '\U{FB06}' then "ST"
    else [c]
  }

  function ToUpperCase(s: string): string {
    if s == [] then [] else UpperChar(s[0]) + ToUpperCase(s[1..])
  }

  /** `toLowerCase` of one character, exact on every character whose lower-case
      form is all ASCII (the letters A-Z and the Kelvin sign); any other
      character is kept, which cannot change a lookup against ASCII keys. */
  function LowerChar(c: char): char {
    if 'A' <= c <= 'Z' then (c as int + 32) as char
    else if c == '\U{212A}' then 'k'
    else c
  }

  /** The result holds no ASCII capital, and equals the input up to the case
      of ASCII letters everywhere but at a Kelvin sign, which becomes 'k'. */
  function ToLowerCase(s: string): (r: string)
    ensures |r| == |s|
    ensures forall i :: 0 <= i < |r| ==> !('A' <= r[i] <= 'Z')
    ensures forall i :: 0 <= i < |s| && s[i] != '\U{212A}' ==> FoldCase(r[i]) == FoldCase(s[i])
    ensures forall i :: 0 <= i < |s| && s[i] == '\U{212A}' ==> r[i] == 'k'
  {
    seq(|s|, i requires 0 <= i < |s| => LowerChar(s[i]))
  }

  /** Lower-casing twice is lower-casing once. */
  lemma LowerIdempotent(s: string)
    ensures ToLowerCase(ToLowerCase(s)) == ToLowerCase(s)
  {
  }

  /** ASCII case folding: the relation "equal up to the case of ASCII letters". */
  function FoldCase(c: char): char {
    if 'A' <= c <= 'Z' then (c as int + 32) as char else c
  }

  predicate SameUpToCase(s: string, t: string) {
    |s| == |t| && forall i :: 0 <= i < |s| ==> FoldCase(s[i]) == FoldCase(t[i])
  }

  lemma {:induction false} UpperIgnoresCase(s: string, t: string)
    requires SameUpToCase(s, t)
    ensures ToUpperCase(s) == ToUpperCase(t)
  {
    if s != [] {
      assert FoldCase(s[0]) == FoldCase(t[0]);
      assert UpperChar(s[0]) == UpperChar(t[0]);
      assert SameUpToCase(s[1..], t[1..]) by {
        forall i | 0 <= i < |s| - 1 ensures FoldCase(s[1..][i]) == FoldCase(t[1..][i]) {
          assert FoldCase(s[i + 1]) == FoldCase(t[i + 1]);
        }
      }
      UpperIgnoresCase(s[1..], t[1..]);
    }
  }

  lemma {:induction false} TrimStartIgnoresCase(s: string, t: string)
    requires SameUpToCase(s, t)
    ensures SameUpToCase(TrimStart(s), TrimStart(t))
  {
    if s != [] {
      assert FoldCase(s[0]) == FoldCase(t[0]);
      assert IsSpace(s[0]) <==> IsSpace(t[0]);
      if IsSpace(s[0]) {
        assert SameUpToCase(s[1..], t[1..]) by {
          forall i | 0 <= i < |s| - 1 ensures FoldCase(s[1..][i]) == FoldCase(t[1..][i]) {
            assert FoldCase(s[i + 1]) == FoldCase(t[i + 1]);
          }
        }
        TrimStartIgnoresCase(s[1..], t[1..]);
      }
    }
  }

  lemma {:induction false} TrimEndIgnoresCase(s: string, t: string)
    requires SameUpToCase(s, t)
    ensures SameUpToCase(TrimEnd(s), TrimEnd(t))
  {
    if s != [] {
      var n := |s| - 1;
      assert FoldCase(s[n]) == FoldCase(t[n]);
      assert IsSpace(s[n]) <==> IsSpace(t[n]);
      if IsSpace(s[n]) {
        assert SameUpToCase(s[..n], t[..n]) by {
          forall i | 0 <= i < n ensures FoldCase(s[..n][i]) == FoldCase(t[..n][i]) {
            assert FoldCase(s[i]) == FoldCase(t[i]);
          }
        }
        TrimEndIgnoresCase(s[..n], t[..n]);
      }
    }
  }

  /** Case changes of ASCII letters commute with trimming and vanish under upper-casing. */
  lemma TrimUpperIgnoresCase(s: string, t: string)
    requires SameUpToCase(s, t)
    ensures ToUpperCase(Trim(s)) == ToUpperCase(Trim(t))
  {
    TrimStartIgnoresCase(s, t);
    TrimEndIgnoresCase(TrimStart(s), TrimStart(t));
    UpperIgnoresCase(Trim(s), Trim(t));
  }

  lemma {:induction false} TrimStartSkipsSpace(w: string, s: string)
    requires AllSpace(w)
    ensures TrimStart(w + s) == TrimStart(s)
  {
    if w != [] {
      assert (w + s)[0] == w[0] && IsSpace(w[0]);
      assert (w + s)[1..] == w[1..] + s;
      assert AllSpace(w[1..]) by {
        forall i | 0 <= i < |w| - 1 ensures IsSpace(w[1..][i]) {
          assert IsSpace(w[i + 1]);
        }
      }
      TrimStartSkipsSpace(w[1..], s);
    } else {
      assert w + s == s;
    }
  }

  lemma {:induction false} TrimEndSkipsSpace(s: string, w: string)
    requires AllSpace(w)
    ensures TrimEnd(s + w) == TrimEnd(s)
  {
    if w != [] {
      var n := |w| - 1;
      assert (s + w)[|s + w| - 1] == w[n];
      assert (s + w)[..|s + w| - 1] == s + w[..n];
      TrimEndSkipsSpace(s, w[..n]);
    } else {
      assert s + w == s;
    }
  }

  /** Trimming the front of `s + w` keeps the tail `w` unless `s` is all space. */
  lemma {:induction false} TrimStartAppend(s: string, w: string)
    requires AllSpace(w)
    ensures AllSpace(s) ==> TrimStart(s + w) == []
    ensures !AllSpace(s) ==> TrimStart(s + w) == TrimStart(s) + w
  {
    if s == [] {
      assert s + w == w;
      TrimStartSkipsSpace(w, []);
      assert w + [] == w;
    } else {
      assert (s + w)[0] == s[0];
      assert (s + w)[1..] == s[1..] + w;
      if IsSpace(s[0]) {
        TrimStartAppend(s[1..], w);
        assert AllSpace(s[1..]) ==> AllSpace(s);
        assert !AllSpace(s[1..]) ==> !AllSpace(s) by {
          if !AllSpace(s[1..]) {
            var i :| 0 <= i < |s[1..]| && !IsSpace(s[1..][i]);
            assert !IsSpace(s[i + 1]);
          }
        }
      } else {
        assert !AllSpace(s);
      }
    }
  }

  lemma TrimAllSpace(s: string)
    requires AllSpace(s)
    ensures TrimStart(s) == []
  {
    TrimStartAppend(s, []);
    assert s + [] == s;
  }

  /** Surrounding whitespace does not survive `trim`. */
  lemma TrimDropsPadding(w1: string, s: string, w2: string)
    requires AllSpace(w1) && AllSpace(w2)
    ensures Trim(w1 + s + w2) == Trim(s)
  {
    assert w1 + s + w2 == w1 + (s + w2);
    TrimStartSkipsSpace(w1, s + w2);
    TrimStartAppend(s, w2);
    if AllSpace(s) {
      TrimAllSpace(s);
    } else {
      TrimEndSkipsSpace(TrimStart(s), w2);
    }
  }

  /** A word of upper-case ASCII letters is its own upper-cased form. */
  lemma {:induction false} UpperWordFixed(s: string)
    requires forall i :: 0 <= i < |s| ==> 'A' <= s[i] <= 'Z'
    ensures ToUpperCase(s) == s
  {
    if s != [] {
      assert UpperChar(s[0]) == [s[0]];
      UpperWordFixed(s[1..]);
      assert s == [s[0]] + s[1..];
    }
  }

  /** A string with no space at either end is its own trimmed form. */
  lemma TrimFixed(s: string)
    requires s != [] && !IsSpace(s[0]) && !IsSpace(s[|s| - 1])
    ensures Trim(s) == s
  {
    assert TrimStart(s) == s;
  }
}
