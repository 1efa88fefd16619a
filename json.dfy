/**
 * The values the service code receives from `json.loads` or builds as
 * dictionaries: `None`, booleans, integers, strings, lists and dicts. A dict is
 * its sequence of key/value pairs in insertion order, which is the order Python
 * iterates it in; Python never holds two pairs with the same key, and lookups
 * below take the first pair with the key.
 */
module Json {
  import opened Wrappers
  import opened Text

  datatype Value =
    | Null
    | Bool(b: bool)
    | Num(n: int)
    | Str(s: string)
    | Arr(items: seq<Value>)
    | Obj(fields: seq<(string, Value)>)

  /** Python's truth value: `None`, `False`, `0` and empty strings, lists and dicts are false. */
  predicate Truthy(v: Value)
  {
    match v
    case Null => false
    case Bool(b) => b
    case Num(n) => n != 0
    case Str(s) => s != ""
    case Arr(items) => items != []
    case Obj(fields) => fields != []
  }

  /** `d[key]` when `key in d`. */
  function Lookup(fields: seq<(string, Value)>, key: string): Option<Value>
  {
    if fields == [] then None
    else if fields[0].0 == key then Some(fields[0].1)
    else Lookup(fields[1..], key)
  }

  /** `key in d` exactly when some pair carries the key, and the value found is that pair's. */
  lemma {:induction false} LookupSpec(fields: seq<(string, Value)>, key: string)
    ensures Lookup(fields, key).None? <==> forall i :: 0 <= i < |fields| ==> fields[i].0 != key
    ensures Lookup(fields, key).Some? ==> (key, Lookup(fields, key).value) in fields
  {
    if fields != [] && fields[0].0 != key {
      LookupSpec(fields[1..], key);
      assert forall i :: 1 <= i < |fields| ==> fields[i] == fields[1..][i - 1];
    }
  }

  /** The pair found is the first one that carries the key. */
  lemma {:induction false} LookupFirst(fields: seq<(string, Value)>, key: string, i: nat)
    requires i < |fields| && fields[i].0 == key
    requires forall j :: 0 <= j < i ==> fields[j].0 != key
    ensures Lookup(fields, key) == Some(fields[i].1)
  {
    if i > 0 {
      LookupFirst(fields[1..], key, i - 1);
    }
  }

  /** `d.get(key)`: `None` when the key is missing. */
  function Get(fields: seq<(string, Value)>, key: string): Value
  {
    match Lookup(fields, key)
    case Some(v) => v
    case None => Null
  }

  /** `key in d and d[key]`. */
  predicate HasTruthy(fields: seq<(string, Value)>, key: string)
  {
    Lookup(fields, key).Some? && Truthy(Lookup(fields, key).value)
  }

  /** Python's `a or b`: `a` when it is truthy, `b` otherwise. */
  function Or(a: Value, b: Value): (r: Value)
    ensures r == a || r == b
    ensures Truthy(a) ==> r == a
    ensures !Truthy(a) ==> r == b
  {
    if Truthy(a) then a else b
  }

  /** Python `str(v)`: a string is itself, anything else its `repr`. */
  function PyStr(v: Value): string
  {
    if v.Str? then v.s else PyRepr(v)
  }

  /** Python `repr(v)` for the values above. */
  function PyRepr(v: Value): string
  {
    match v
    case Null => "None"
    case Bool(b) => if b then "True" else "False"
    case Num(n) => IntToDecimal(n)
    case Str(s) => ReprString(s)
    case Arr(items) =>
      "[" + Join(", ", seq(|items|, i requires 0 <= i < |items| => PyRepr(items[i]))) + "]"
    case Obj(fields) =>
      "{" + Join(", ", seq(|fields|, i requires 0 <= i < |fields| =>
        ReprString(fields[i].0) + ": " + PyRepr(fields[i].1))) + "}"
  }

  /**
   * `repr` of a string: single quotes unless the text holds a single quote and
   * no double quote; the backslash, the chosen quote, newline, carriage return
   * and tab are written as escapes.
   */
  function ReprString(s: string): string
  {
    var q := if '\'' in s && '"' !in s then '"' else '\'';
    [q] + ReprChars(s, q) + [q]
  }

  function ReprChars(s: string, q: char): string
  {
    if s == [] then ""
    else
      var c := s[0];
      var e := if c == '\\' then "\\\\"
               else if c == q then ['\\', q]
               else if c == '\n' then "\\n"
               else if c == '\r' then "\\r"
               else if c == '\t' then "\\t"
               else [c];
      e + ReprChars(s[1..], q)
  }

  /** `json.dumps(v, ensure_ascii=False)` with the default separators. */
  function Dumps(v: Value): string
  {
    match v
    case Null => "null"
    case Bool(b) => if b then "true" else "false"
    case Num(n) => IntToDecimal(n)
    case Str(s) => DumpsString(s)
    case Arr(items) =>
      "[" + Join(", ", seq(|items|, i requires 0 <= i < |items| => Dumps(items[i]))) + "]"
    case Obj(fields) =>
      "{" + Join(", ", seq(|fields|, i requires 0 <= i < |fields| =>
        DumpsString(fields[i].0) + ": " + Dumps(fields[i].1))) + "}"
  }

  /** A JSON string literal: quote, backslash and control characters escaped. */
  function DumpsString(s: string): string
  {
    "\"" + DumpsChars(s) + "\""
  }

  function DumpsChars(s: string): string
  {
    if s == [] then ""
    else
      var c := s[0];
      var e := if c == '"' then "\\\""
               else if c == '\\' then "\\\\"
               else if c == '\n' then "\\n"
               else if c == '\r' then "\\r"
               else if c == '\t' then "\\t"
               else if c == '\U{8}' then "\\b"
               else if c == '\U{C}' then "\\f"
               else if c < ' ' then "\\u00" + [HexDigit(c as int / 16), HexDigit(c as int % 16)]
               else [c];
      e + DumpsChars(s[1..])
  }

  function HexDigit(d: nat): (r: char)
    requires d < 16
    ensures '0' <= r <= '9' || 'a' <= r <= 'f'
  {
    if d < 10 then ('0' as int + d) as char else ('a' as int + d - 10) as char
  }
}
