/** The JavaScript values the library's records are made of, with the
    coercions and built-ins the core relies on (truthiness, `typeof`,
    `.length`, `concat`, `trim`). */
module JsValues {
  import opened Wrappers

  /** A `Date` object: either a valid instant, carried by its ISO 8601
      rendering (what `toISOString()` returns), or an invalid date. */
  datatype JsDate = ValidDate(iso: string) | InvalidDate

  /** A JavaScript value as it can appear in a metadata record. Numbers are
      integers here; `Obj` is any non-array object other than a date. */
  datatype JsValue =
    | Undefined
    | Null
    | Bool(b: bool)
    | Num(n: int)
    | Str(s: string)
    | Arr(items: seq<JsValue>)
    | Obj
    | Date(d: JsDate)

  /** The exceptions the core raises. `VerificationError` is the
      distinguished error of the metadata validators, `ValidationError` the
      one of the asset and hatch layer, `PlainError` a bare `Error`;
      `TypeError` and `RangeError` are raised by the JavaScript engine, and
      their `cause` names the failing operation rather than the engine's
      own wording. */
  datatype Error =
    | VerificationError(message: string)
    | ValidationError(message: string)
    | PlainError(message: string)
    | TypeError(cause: string)
    | RangeError(cause: string)

  /** A metadata record; a key that is absent reads as `undefined`. */
  type Record = map<string, JsValue>

  function Get(m: Record, key: string): JsValue
  {
    if key in m then m[key] else Undefined
  }

  /** JavaScript truthiness (`!!v`). */
  predicate Truthy(v: JsValue)
  {
    match v
    case Undefined => false
    case Null => false
    case Bool(b) => b
    case Num(n) => n != 0
    case Str(s) => s != ""
    case _ => true
  }

  predicate IsNullish(v: JsValue) { v.Undefined? || v.Null? }

  /** A string's `length`: its UTF-16 code units, one for a character of
      the Basic Multilingual Plane and two (a surrogate pair) for any
      other. */
  function Utf16Length(s: string): (n: nat)
    ensures |s| <= n <= 2 * |s|
    ensures n == |s| <==> forall i :: 0 <= i < |s| ==> s[i] as int < 0x10000
    decreases |s|
  {
    if s == [] then 0
    else
      var rest := Utf16Length(s[1..]);
      assert forall i :: 1 <= i < |s| ==> s[i] == s[1..][i - 1];
      (if s[0] as int < 0x10000 then 1 else 2) + rest
  }

  /** `v.length` for a value that is not null or undefined: strings (in
      UTF-16 code units) and arrays have one, every other value yields
      `undefined`. */
  function Length(v: JsValue): Option<nat>
  {
    match v
    case Str(s) => Some(Utf16Length(s))
    case Arr(items) => Some(|items|)
    case _ => None
  }

  /** An optional string field read as a property: unset is `undefined`. */
  function OptStr(o: Option<string>): (v: JsValue)
    ensures o.None? <==> v.Undefined?
    ensures o.Some? ==> v == Str(o.value)
  {
    match o
    case None => Undefined
    case Some(s) => Str(s)
  }

  function Strs(xs: seq<string>): (r: seq<JsValue>)
    ensures |r| == |xs| && forall i :: 0 <= i < |xs| ==> r[i] == Str(xs[i])
  {
    if xs == [] then [] else [Str(xs[0])] + Strs(xs[1..])
  }

  /** `Array.prototype.join(',')` over strings, which is how a string
      concatenates an array argument. */
  function JoinComma(xs: seq<string>): string
  {
    if xs == [] then "" else if |xs| == 1 then xs[0] else xs[0] + "," + JoinComma(xs[1..])
  }

  /** `v.concat(tail)` for an array of strings `tail`: an array appends the
      elements, a string appends their comma-joined text, null and
      undefined have no properties and other values have no `concat`. */
  function Concat(v: JsValue, tail: seq<string>): (r: Result<JsValue, Error>)
    ensures v.Arr? <==> r.Ok? && r.value.Arr?
    ensures v.Arr? ==> r.value.items == v.items + Strs(tail)
    ensures r.Ok? <==> v.Arr? || v.Str?
  {
    match v
    case Arr(items) => Ok(Arr(items + Strs(tail)))
    case Str(s) => Ok(Str(s + JoinComma(tail)))
    case Undefined => Err(TypeError("cannot read property 'concat' of undefined"))
    case Null => Err(TypeError("cannot read property 'concat' of null"))
    case _ => Err(TypeError("concat is not a function"))
  }

  /** The characters `String.prototype.trim` removes: the ECMAScript
      WhiteSpace and LineTerminator code points. The same class is `\s` in
      a regular expression. */
  predicate IsJsSpace(c: char)
  {
    || c == '\t' || c == '\n' || c == '\U{000B}' || c == '\U{000C}' || c == '\r'
    || c == ' ' || c == '\U{00A0}' || c == '\U{1680}'
    || ('\U{2000}' <= c <= '\U{200A}')
    || c == '\U{2028}' || c == '\U{2029}' || c == '\U{202F}' || c == '\U{205F}'
    || c == '\U{3000}' || c == '\U{FEFF}'
  }

  /** The number of white-space characters `s` starts with. */
  function LeadingSpaces(s: string): (n: nat)
    ensures n <= |s|
    ensures forall k :: 0 <= k < n ==> IsJsSpace(s[k])
    ensures n < |s| ==> !IsJsSpace(s[n])
    decreases |s|
  {
    if s != [] && IsJsSpace(s[0]) then 1 + LeadingSpaces(s[1..]) else 0
  }

  /** The number of white-space characters `s` ends with. */
  function TrailingSpaces(s: string): (n: nat)
    ensures n <= |s|
    ensures forall k :: |s| - n <= k < |s| ==> IsJsSpace(s[k])
    ensures n < |s| ==> !IsJsSpace(s[|s| - n - 1])
    decreases |s|
  {
    if s != [] && IsJsSpace(s[|s| - 1]) then 1 + TrailingSpaces(s[..|s| - 1]) else 0
  }

  /** `String.prototype.trim`: `s` is the leading white space, the result,
      and the trailing white space, and the result neither starts nor ends
      with white space. */
  function Trim(s: string): (r: string)
    ensures LeadingSpaces(s) + |r| <= |s|
    ensures s[LeadingSpaces(s)..LeadingSpaces(s) + |r|] == r
    ensures forall k :: 0 <= k < LeadingSpaces(s) ==> IsJsSpace(s[k])
    ensures forall k :: LeadingSpaces(s) + |r| <= k < |s| ==> IsJsSpace(s[k])
    ensures r != "" ==> !IsJsSpace(r[0]) && !IsJsSpace(r[|r| - 1])
  {
    var a := LeadingSpaces(s);
    var t := s[a..];
    t[..|t| - TrailingSpaces(t)]
  }

  /** A string that neither starts nor ends with white space is its own trim. */
  lemma TrimUnpadded(s: string)
    requires s != [] ==> !IsJsSpace(s[0]) && !IsJsSpace(s[|s| - 1])
    ensures Trim(s) == s
  {
    assert LeadingSpaces(s) == 0;
    assert s[0..] == s;
    assert TrailingSpaces(s) == 0;
  }

  /** `v.trim()`: a string is trimmed; null and undefined have no
      properties, and other values have no `trim`. */
  function CallTrim(v: JsValue): (r: Result<string, Error>)
    ensures r.Ok? <==> v.Str?
    ensures r.Ok? ==> r.value == Trim(v.s)
    ensures r.Err? ==> r.error.TypeError?
  {
    match v
    case Str(s) => Ok(Trim(s))
    case Undefined => Err(TypeError("cannot read property 'trim' of undefined"))
    case Null => Err(TypeError("cannot read property 'trim' of null"))
    case _ => Err(TypeError("trim is not a function"))
  }

  /** `String.prototype.toLowerCase` on the ASCII letters; other characters
      are left as they are. */
  function ToLowerAscii(s: string): (r: string)
    ensures |r| == |s|
    ensures forall i :: 0 <= i < |s| ==> r[i] == if 'A' <= s[i] <= 'Z' then (s[i] as int + 32) as char else s[i]
  {
    if s == [] then []
    else [if 'A' <= s[0] <= 'Z' then (s[0] as int + 32) as char else s[0]] + ToLowerAscii(s[1..])
  }
}
