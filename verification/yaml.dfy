/** The values yaml.safe_load hands back (the loader itself is not part of this model:
    it is an opaque parameter of the validator), and the Python text of those values. */
module Yaml {
  import opened Outcomes
  import opened Text

  /** A loaded YAML node as a Python value: None, bool, int, str, list or dict.
      A mapping keeps its entries in insertion order; the loader produces one entry per
      distinct key, as a Python dict holds them. */
  datatype YamlValue =
    | YNull
    | YBool(b: bool)
    | YInt(i: int)
    | YStr(s: string)
    | YList(items: seq<YamlValue>)
    | YMap(entries: seq<Entry>)

  datatype Entry = Entry(key: YamlValue, value: YamlValue)

  /** The value stored under `key`, if any. */
  function Lookup(entries: seq<Entry>, key: YamlValue): (r: Option<YamlValue>)
    ensures r.Some? <==> exists i :: 0 <= i < |entries| && entries[i].key == key
    ensures r.Some? ==> Entry(key, r.value) in entries
  {
    if entries == [] then None
    else if entries[0].key == key then Some(entries[0].value)
    else Lookup(entries[1..], key)
  }

  /** Python's `key in d` for a string key. */
  predicate HasKey(d: YamlValue, key: string)
    requires d.YMap?
  {
    Lookup(d.entries, YStr(key)).Some?
  }

  /** Python's `d.get(key, default)` for a string key. */
  function Get(d: YamlValue, key: string, default: YamlValue): YamlValue
    requires d.YMap?
  {
    match Lookup(d.entries, YStr(key))
    case Some(v) => v
    case None => default
  }

  /** Python truthiness: None, False, 0, "" and empty containers are false. */
  predicate Truthy(v: YamlValue) {
    match v
    case YNull => false
    case YBool(b) => b
    case YInt(i) => i != 0
    case YStr(s) => s != ""
    case YList(items) => items != []
    case YMap(entries) => entries != []
  }

  /** The name of the value's Python type, as exception messages print it. */
  function TypeName(v: YamlValue): string {
    match v
    case YNull => "NoneType"
    case YBool(_) => "bool"
    case YInt(_) => "int"
    case YStr(_) => "str"
    case YList(_) => "list"
    case YMap(_) => "dict"
  }

  /** Python's str() of a value, which an f-string interpolates. */
  function Str(v: YamlValue): string {
    if v.YStr? then v.s else Repr(v)
  }

  /** Python's repr() of a value. */
  function Repr(v: YamlValue): string
    decreases v, 0
  {
    match v
    case YNull => "None"
    case YBool(b) => if b then "True" else "False"
    case YInt(i) => DecimalString(i)
    case YStr(s) => QuoteString(s)
    case YList(items) => "[" + ReprItems(items) + "]"
    case YMap(entries) => "{" + ReprEntries(entries) + "}"
  }

  function ReprItems(items: seq<YamlValue>): string
    decreases items
  {
    if items == [] then ""
    else if |items| == 1 then Repr(items[0])
    else Repr(items[0]) + ", " + ReprItems(items[1..])
  }

  function ReprEntries(entries: seq<Entry>): string
    decreases entries
  {
    if entries == [] then ""
    else
      if |entries| == 1 then ReprEntry(entries[0])
      else ReprEntry(entries[0]) + ", " + ReprEntries(entries[1..])
  }

  function ReprEntry(e: Entry): string
    decreases e
  {
    Repr(e.key) + ": " + Repr(e.value)
  }

  /** repr() of a str: single quotes, unless the text holds a single quote and no
      double quote; backslash, the chosen quote and control characters are escaped. */
  function QuoteString(s: string): string {
    var q := if '\'' in s && '"' !in s then '"' else '\'';
    [q] + EscapeChars(s, q) + [q]
  }

  function EscapeChars(s: string, q: char): string {
    if s == [] then "" else EscapeChar(s[0], q) + EscapeChars(s[1..], q)
  }

  /** One character as repr writes it: `\\`, the quote, `\n`, `\r` and `\t` by name, and
      the other characters of U+0000-U+00FF that Python does not count as printable (the
      C0 controls, DEL to U+00A0, and U+00AD) as `\xNN`. */
  function EscapeChar(c: char, q: char): string {
    if c == '\\' then "\\\\"
    else if c == q then ['\\', q]
    else if c == '\n' then "\\n"
    else if c == '\r' then "\\r"
    else if c == '\t' then "\\t"
    else if c as int < 0x20 || 0x7F <= c as int <= 0xA0 || c as int == 0xAD then "\\x" + Hex2(c as int)
    else [c]
  }

  function Hex2(n: int): string
    requires 0 <= n < 256
  {
    ["0123456789abcdef"[n / 16], "0123456789abcdef"[n % 16]]
  }
}
