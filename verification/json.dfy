/** Parsed JSON values, as the handlers see them after `JSON.parse` or
    `response.json()`, together with the three JavaScript operations the
    handlers apply to them: property access, truthiness, and conversion back to
    text (`JSON.stringify` and template-literal interpolation).

    A number is kept as the text JavaScript prints for it (what
    `Number.prototype.toString` yields); the handlers never do arithmetic on
    parsed numbers, they only test, copy and print them. */
module Json {
  import opened Wrappers

  datatype Json =
    | JNull
    | JBool(b: bool)
    | JNum(text: string)
    | JStr(s: string)
    | JArr(items: seq<Json>)
    | JObj(fields: seq<Field>)

  /** One own property of an object, in enumeration order. */
  datatype Field = Field(key: string, value: Json)

  /** `obj[key]` for a non-null value: the property of an object, `undefined`
      (None) for a missing key and for every primitive or array (no key the
      handlers read is an array index or a string method). Reading a property
      of `null` throws in JavaScript; callers treat `JNull` themselves. */
  function Get(j: Json, key: string): (r: Option<Json>)
    ensures r.Some? ==> j.JObj? && exists i :: 0 <= i < |j.fields| && j.fields[i] == Field(key, r.value)
    ensures r.None? <==> !j.JObj? || forall i :: 0 <= i < |j.fields| ==> j.fields[i].key != key
  {
    if j.JObj? then Lookup(j.fields, key) else None
  }

  function Lookup(fields: seq<Field>, key: string): (r: Option<Json>)
    ensures r.Some? ==> exists i :: 0 <= i < |fields| && fields[i] == Field(key, r.value)
    ensures r.None? <==> forall i :: 0 <= i < |fields| ==> fields[i].key != key
  {
    if |fields| == 0 then None
    else if fields[0].key == key then Some(fields[0].value)
    else
      var r := Lookup(fields[1..], key);
      assert forall i :: 1 <= i < |fields| ==> fields[i] == fields[1..][i - 1];
      r
  }

  /** The value of the first field named `key`. */
  lemma LookupFirst(fields: seq<Field>, k: nat, key: string)
    requires k < |fields| && fields[k].key == key
    requires forall i :: 0 <= i < k ==> fields[i].key != key
    ensures Lookup(fields, key) == Some(fields[k].value)
  {
    if k > 0 {
      LookupFirst(fields[1..], k - 1, key);
    }
  }

  /** JavaScript truthiness of a possibly-undefined value: `undefined`,
      `null`, `false`, `0` and `""` are falsy, every array and object is
      truthy. Negative zero prints as "0" and NaN cannot come out of a parse,
      so "0" is the only falsy number text. */
  predicate Truthy(v: Option<Json>)
  {
    match v
    case None => false
    case Some(JNull) => false
    case Some(JBool(b)) => b
    case Some(JNum(t)) => t != "0"
    case Some(JStr(s)) => s != ""
    case Some(JArr(_)) => true
    case Some(JObj(_)) => true
  }

  /** `parts` joined with `sep` between neighbours, as `Array.prototype.join`. */
  function Join(parts: seq<string>, sep: string): (r: string)
    ensures |parts| == 1 ==> r == parts[0]
    ensures |parts| == 0 ==> r == ""
    ensures |parts| >= 1 ==> |parts[0]| <= |r| && r[..|parts[0]|] == parts[0]
  {
    if |parts| == 0 then ""
    else if |parts| == 1 then parts[0]
    else parts[0] + sep + Join(parts[1..], sep)
  }

  /** Lower-case hexadecimal digit of `n`, as `JSON.stringify` writes in a
      `\u00XX` escape. */
  function HexDigit(n: nat): (c: char)
    requires n < 16
  {
    if n < 10 then ('0' as int + n) as char else ('a' as int + n - 10) as char
  }

  /** The escape `JSON.stringify` writes for one character of a string. */
  function EscapeChar(c: char): (r: string)
    ensures |r| >= 1
    ensures c != '"' && c != '\\' && c >= ' ' ==> r == [c]
  {
    if c == '"' then "\\\""
    else if c == '\\' then "\\\\"
    else if c == '\U{8}' then "\\b"
    else if c == '\t' then "\\t"
    else if c == '\n' then "\\n"
    else if c == '\U{c}' then "\\f"
    else if c == '\r' then "\\r"
    else if c < ' ' then "\\u00" + [HexDigit(c as int / 16), HexDigit(c as int % 16)]
    else [c]
  }

  /** No character of `s` needs an escape. */
  predicate Plain(s: string)
  {
    forall i :: 0 <= i < |s| ==> s[i] != '"' && s[i] != '\\' && s[i] >= ' '
  }

  function Escape(s: string): (r: string)
    ensures |r| >= |s|
    ensures Plain(s) ==> r == s
  {
    if |s| == 0 then "" else EscapeChar(s[0]) + Escape(s[1..])
  }

  /** A string literal as `JSON.stringify` writes it. */
  function Quote(s: string): (r: string)
  {
    "\"" + Escape(s) + "\""
  }

  /** `JSON.stringify(j)` without indentation: keys in enumeration order,
      no spaces. */
  function Stringify(j: Json): (r: string)
    decreases j
  {
    match j
    case JNull => "null"
    case JBool(b) => if b then "true" else "false"
    case JNum(t) => t
    case JStr(s) => Quote(s)
    case JArr(items) =>
      "[" + Join(seq(|items|, i requires 0 <= i < |items| => Stringify(items[i])), ",") + "]"
    case JObj(fields) =>
      "{" + Join(seq(|fields|, i requires 0 <= i < |fields| =>
                   Quote(fields[i].key) + ":" + Stringify(fields[i].value)), ",") + "}"
  }

  /** The text of one object member, `"key":value`. */
  function MemberText(f: Field): string
  {
    Quote(f.key) + ":" + Stringify(f.value)
  }

  /** The text of an object opens with its first member. */
  lemma StringifyObjectStart(fields: seq<Field>)
    requires |fields| >= 1
    ensures var head := "{" + MemberText(fields[0]);
            |head| <= |Stringify(JObj(fields))| && Stringify(JObj(fields))[..|head|] == head
  {
    var parts := seq(|fields|, i requires 0 <= i < |fields| => Quote(fields[i].key) + ":" + Stringify(fields[i].value));
    assert Stringify(JObj(fields)) == "{" + Join(parts, ",") + "}";
    assert parts[0] == MemberText(fields[0]);
  }

  /** The text of an object with two members. */
  lemma StringifyTwoMembers(f0: Field, f1: Field)
    ensures Stringify(JObj([f0, f1])) == "{" + (MemberText(f0) + "," + MemberText(f1)) + "}"
  {
    var fields := [f0, f1];
    var parts := seq(|fields|, i requires 0 <= i < |fields| => Quote(fields[i].key) + ":" + Stringify(fields[i].value));
    assert parts == [MemberText(f0), MemberText(f1)];
    assert Join(parts, ",") == MemberText(f0) + "," + MemberText(f1);
  }

  /** `String(v)` throws a TypeError. For an object with its own `toString`
      member, the member is not callable (no parsed value is a function) and
      the inherited `valueOf` returns the object itself, so no primitive is
      found. An array converts each element through `join`, so it throws when
      one of its elements does. Every other parsed value converts. */
  predicate StringThrows(j: Json)
    decreases j
  {
    match j
    case JObj(fields) => exists i :: 0 <= i < |fields| && fields[i].key == "toString"
    case JArr(items) => exists i :: 0 <= i < |items| && StringThrows(items[i])
    case _ => false
  }

  /** `${v}` in a template literal, that is `String(v)` when it does not
      throw: strings verbatim, numbers and booleans as printed, objects as
      "[object Object]", arrays as their elements joined with commas (a null
      element prints as ""). */
  function TemplateString(j: Json): (r: string)
    decreases j
  {
    match j
    case JNull => "null"
    case JBool(b) => if b then "true" else "false"
    case JNum(t) => t
    case JStr(s) => s
    case JObj(_) => "[object Object]"
    case JArr(items) =>
      Join(seq(|items|, i requires 0 <= i < |items| =>
             if items[i].JNull? then "" else TemplateString(items[i])), ",")
  }

  /** A JSON array of strings. */
  function StrArray(ss: seq<string>): (r: Json)
    ensures r.JArr? && |r.items| == |ss|
    ensures forall i :: 0 <= i < |ss| ==> r.items[i] == JStr(ss[i])
  {
    JArr(seq(|ss|, i requires 0 <= i < |ss| => JStr(ss[i])))
  }

  /** The strings of `j` when it is an array holding only strings. */
  function AsStrings(j: Json): (r: Option<seq<string>>)
    ensures r.Some? <==> j.JArr? && forall i :: 0 <= i < |j.items| ==> j.items[i].JStr?
    ensures r.Some? ==> StrArray(r.value) == j
  {
    if j.JArr? && forall i :: 0 <= i < |j.items| ==> j.items[i].JStr? then
      Some(seq(|j.items|, i requires 0 <= i < |j.items| => j.items[i].s))
    else None
  }

  /** Reading back an array of strings gives the strings. */
  lemma AsStringsOfStrArray(ss: seq<string>)
    ensures AsStrings(StrArray(ss)) == Some(ss)
  {
    var r := AsStrings(StrArray(ss));
    assert r.Some?;
    assert |r.value| == |ss| && forall i :: 0 <= i < |ss| ==> r.value[i] == ss[i];
    assert r.value == ss;
  }
}
