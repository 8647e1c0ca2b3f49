/**
 `json.dumps(..., sort_keys=True)` as the exporter and the evidence store call it,
 and `json.loads`, both over text (the UTF-8 layer is left out).
 Floats are not modelled: the printer has no case for them and the parser fails on them.
 */
module Json {
  import opened Sorting

  /**
   Opaque stands for the two leaf kinds handled by a `default=` hook (datetime and
   bytes): `wire` is the exporter's text for it (UTC ISO 8601, base64), `shown` its `str()`.
   */
  datatype Json =
    | Null
    | Bool(b: bool)
    | Int(n: int)
    | Str(s: string)
    | Opaque(wire: string, shown: string)
    | Arr(items: seq<Json>)
    | Obj(fields: seq<KV<Json>>)

  /** ascii: `ensure_ascii`; spaced: the default separators; shown: `default=str`. */
  datatype Style = Style(ascii: bool, spaced: bool, shown: bool)

  /** `_canonical_json` of the exporter. */
  const CANONICAL := Style(false, false, false)
  /** The fallback key of `_row_sort_key`. */
  const ROW_KEY := Style(true, true, false)
  /** `EvidencePayload.canonical_json`. */
  const EVIDENCE := Style(true, false, true)

  /** A Python dict never repeats a key, at any depth. */
  ghost predicate WellFormed(v: Json) {
    match v
    case Arr(items) => forall i :: 0 <= i < |items| ==> WellFormed(items[i])
    case Obj(fields) =>
      && DistinctKeys(fields)
      && forall i :: 0 <= i < |fields| ==> WellFormed(fields[i].val)
    case _ => true
  }

  // ---------- numbers ----------

  function DigitChar(d: nat): char
    requires d < 10
  {
    '0' + d as char
  }

  predicate IsDigit(c: char) { '0' <= c <= '9' }

  function DigitVal(c: char): nat
    requires IsDigit(c)
  {
    c as int - '0' as int
  }

  function Digits(n: nat): string {
    if n < 10 then [DigitChar(n)] else Digits(n / 10) + [DigitChar(n % 10)]
  }

  function Decimal(n: int): string {
    if n < 0 then "-" + Digits(-n) else Digits(n)
  }

  // ---------- strings ----------

  function HexChar(d: nat): char
    requires d < 16
  {
    if d < 10 then '0' + d as char else 'a' + (d - 10) as char
  }

  function Hex4(n: nat): string
    requires n < 0x1_0000
  {
    [HexChar(n / 0x1000), HexChar(n / 0x100 % 16), HexChar(n / 16 % 16), HexChar(n % 16)]
  }

  function UnicodeEscape(n: nat): string
    requires n < 0x1_0000
  {
    "\\u" + Hex4(n)
  }

  function EscapeChar(ascii: bool, c: char): string {
    if c == '"' then "\\\""
    else if c == '\\' then "\\\\"
    else if c == '\n' then "\\n"
    else if c == '\r' then "\\r"
    else if c == '\t' then "\\t"
    else if c == '\U{000C}' then "\\f"
    else if c == '\U{0008}' then "\\b"
    else if c < ' ' || (ascii && '~' < c && c as int < 0x1_0000) then UnicodeEscape(c as int)
    else if ascii && '~' < c then
      var n := c as int - 0x1_0000;
      UnicodeEscape(0xD800 + n / 0x400) + UnicodeEscape(0xDC00 + n % 0x400)
    else [c]
  }

  function Escape(ascii: bool, s: string): string {
    if s == [] then [] else EscapeChar(ascii, s[0]) + Escape(ascii, s[1..])
  }

  function Quote(ascii: bool, s: string): string {
    "\"" + Escape(ascii, s) + "\""
  }

  // ---------- printer ----------

  function Comma(st: Style): string { if st.spaced then ", " else "," }
  function Colon(st: Style): string { if st.spaced then ": " else ":" }

  function Join(sep: string, parts: seq<string>): string {
    if parts == [] then ""
    else if |parts| == 1 then parts[0]
    else parts[0] + sep + Join(sep, parts[1..])
  }

  function Leaf(st: Style, v: Json): string
    requires v.Opaque?
  {
    if st.shown then v.shown else v.wire
  }

  function Print(st: Style, v: Json): string
    decreases v, 0
  {
    match v
    case Null => "null"
    case Bool(b) => if b then "true" else "false"
    case Int(n) => Decimal(n)
    case Str(s) => Quote(st.ascii, s)
    case Opaque(_, _) => Quote(st.ascii, Leaf(st, v))
    case Arr(items) => "[" + Join(Comma(st), PrintItems(st, items)) + "]"
    case Obj(fields) => "{" + Join(Comma(st), Members(st, Sort(PrintVals(st, fields)))) + "}"
  }

  function PrintItems(st: Style, items: seq<Json>): (r: seq<string>)
    ensures |r| == |items|
    ensures forall i :: 0 <= i < |r| ==> r[i] == Print(st, items[i])
    decreases items, 1
  {
    seq(|items|, i requires 0 <= i < |items| => Print(st, items[i]))
  }

  function PrintVals(st: Style, fields: seq<KV<Json>>): (r: seq<KV<string>>)
    ensures |r| == |fields|
    ensures forall i :: 0 <= i < |r| ==> r[i] == KV(fields[i].key, Print(st, fields[i].val))
    decreases fields, 1
  {
    seq(|fields|, i requires 0 <= i < |fields| => KV(fields[i].key, Print(st, fields[i].val)))
  }

  function Members(st: Style, kvs: seq<KV<string>>): (r: seq<string>)
    ensures |r| == |kvs|
  {
    seq(|kvs|, i requires 0 <= i < |kvs| => Quote(st.ascii, kvs[i].key) + Colon(st) + kvs[i].val)
  }

  /** What a printed value reads back as: hook leaves become strings, members come in key order. */
  function Plain(st: Style, v: Json): Json
    decreases v, 0
  {
    match v
    case Opaque(_, _) => Str(Leaf(st, v))
    case Arr(items) => Arr(PlainItems(st, items))
    case Obj(fields) => Obj(Sort(PlainVals(st, fields)))
    case _ => v
  }

  function PlainItems(st: Style, items: seq<Json>): (r: seq<Json>)
    ensures |r| == |items|
    ensures forall i :: 0 <= i < |r| ==> r[i] == Plain(st, items[i])
    decreases items, 1
  {
    seq(|items|, i requires 0 <= i < |items| => Plain(st, items[i]))
  }

  function PlainVals(st: Style, fields: seq<KV<Json>>): (r: seq<KV<Json>>)
    ensures |r| == |fields|
    ensures forall i :: 0 <= i < |r| ==> r[i] == KV(fields[i].key, Plain(st, fields[i].val))
    decreases fields, 1
  {
    seq(|fields|, i requires 0 <= i < |fields| => KV(fields[i].key, Plain(st, fields[i].val)))
  }

  // ---------- parser ----------

  datatype Parsed<T> = Fail | Ok(val: T, rest: string)

  predicate IsWs(c: char) { c == ' ' || c == '\t' || c == '\n' || c == '\r' }

  function SkipWs(s: string): (r: string)
    ensures |r| <= |s|
    ensures r == [] || !IsWs(r[0])
  {
    if s != [] && IsWs(s[0]) then SkipWs(s[1..]) else s
  }

  predicate StartsWith(s: string, p: string) { |p| <= |s| && s[..|p|] == p }

  function TakeDigits(acc: nat, s: string): (r: (nat, string))
    ensures |r.1| <= |s|
    decreases |s|
  {
    if s != [] && IsDigit(s[0]) then TakeDigits(acc * 10 + DigitVal(s[0]), s[1..]) else (acc, s)
  }

  /** `-?(0|[1-9][0-9]*)`; a fraction or exponent makes it a float, which fails here. */
  function ParseInt(s: string): (r: Parsed<int>)
    requires s != []
    ensures r.Ok? ==> |r.rest| < |s|
  {
    var neg := s[0] == '-';
    var t := if neg then s[1..] else s;
    if t == [] || !IsDigit(t[0]) then Fail
    else
      var (n, rest) := if t[0] == '0' then (0, t[1..]) else TakeDigits(DigitVal(t[0]), t[1..]);
      if rest != [] && rest[0] in ".eE" then Fail
      else
        var v: int := n;
        Ok(if neg then -v else v, rest)
  }

  predicate IsHex(c: char) { '0' <= c <= '9' || 'a' <= c <= 'f' || 'A' <= c <= 'F' }

  function HexVal(c: char): (d: nat)
    requires IsHex(c)
    ensures d < 16
  {
    if c <= '9' then c as int - '0' as int
    else if c <= 'F' then c as int - 'A' as int + 10
    else c as int - 'a' as int + 10
  }

  /** The value of `\uXXXX` at the head of s, if there is one. */
  function UnicodeAt(s: string): (r: Parsed<nat>)
    ensures r.Ok? ==> |s| >= 6 && r.rest == s[6..] && r.val < 0x1_0000
  {
    if |s| >= 6 && s[0] == '\\' && s[1] == 'u' && IsHex(s[2]) && IsHex(s[3]) && IsHex(s[4]) && IsHex(s[5]) then
      Ok(HexVal(s[2]) * 0x1000 + HexVal(s[3]) * 0x100 + HexVal(s[4]) * 16 + HexVal(s[5]), s[6..])
    else Fail
  }

  function SimpleEscape(c: char): Parsed<char> {
    match c
    case '"' => Ok('"', "")
    case '\\' => Ok('\\', "")
    case '/' => Ok('/', "")
    case 'b' => Ok('\U{0008}', "")
    case 'f' => Ok('\U{000C}', "")
    case 'n' => Ok('\n', "")
    case 'r' => Ok('\r', "")
    case 't' => Ok('\t', "")
    case _ => Fail
  }

  /** One character of a string literal.  A lone surrogate is no character and fails. */
  function ParseChar(s: string): (r: Parsed<char>)
    ensures r.Ok? ==> |r.rest| < |s|
  {
    if s == [] || s[0] < ' ' || s[0] == '"' then Fail
    else if s[0] != '\\' then Ok(s[0], s[1..])
    else if |s| >= 2 && SimpleEscape(s[1]).Ok? then Ok(SimpleEscape(s[1]).val, s[2..])
    else
      match UnicodeAt(s)
      case Fail => Fail
      case Ok(n, rest) =>
        if 0xD800 <= n < 0xDC00 then
          match UnicodeAt(rest)
          case Fail => Fail
          case Ok(m, rest') =>
            if 0xDC00 <= m < 0xE000 then
              Ok((0x1_0000 + (n - 0xD800) * 0x400 + (m - 0xDC00)) as char, rest')
            else Fail
        else if 0xDC00 <= n < 0xE000 then Fail
        else Ok(n as char, rest)
  }

  /** The rest of a string literal after its opening quote. */
  function ParseChars(s: string): (r: Parsed<string>)
    ensures r.Ok? ==> |r.rest| < |s|
    decreases |s|
  {
    if s != [] && s[0] == '"' then Ok("", s[1..])
    else
      match ParseChar(s)
      case Fail => Fail
      case Ok(c, t) =>
        match ParseChars(t)
        case Fail => Fail
        case Ok(cs, rest) => Ok([c] + cs, rest)
  }

  /** `dict(pairs)`: a later duplicate replaces the value at the earlier place. */
  function Put<T>(d: seq<KV<T>>, x: KV<T>): seq<KV<T>> {
    if d == [] then [x]
    else if d[0].key == x.key then [x] + d[1..]
    else [d[0]] + Put(d[1..], x)
  }

  function DictOf<T>(pairs: seq<KV<T>>): seq<KV<T>> {
    if pairs == [] then [] else Put(DictOf(pairs[..|pairs| - 1]), pairs[|pairs| - 1])
  }

  function ParseValue(s: string): (r: Parsed<Json>)
    ensures r.Ok? ==> |r.rest| < |s|
    decreases |s|, 0
  {
    if s == [] then Fail
    else if s[0] == '"' then
      (match ParseChars(s[1..])
       case Fail => Fail
       case Ok(t, rest) => Ok(Str(t), rest))
    else if s[0] == '{' then
      var t := SkipWs(s[1..]);
      if t != [] && t[0] == '}' then Ok(Obj([]), t[1..])
      else
        (match ParseMembers(t)
         case Fail => Fail
         case Ok(kvs, rest) => Ok(Obj(DictOf(kvs)), rest))
    else if s[0] == '[' then
      var t := SkipWs(s[1..]);
      if t != [] && t[0] == ']' then Ok(Arr([]), t[1..])
      else
        (match ParseItems(t)
         case Fail => Fail
         case Ok(vs, rest) => Ok(Arr(vs), rest))
    else if StartsWith(s, "null") then Ok(Null, s[4..])
    else if StartsWith(s, "true") then Ok(Bool(true), s[4..])
    else if StartsWith(s, "false") then Ok(Bool(false), s[5..])
    else
      match ParseInt(s)
      case Fail => Fail
      case Ok(n, rest) => Ok(Int(n), rest)
  }

  function ParseItems(s: string): (r: Parsed<seq<Json>>)
    ensures r.Ok? ==> |r.rest| < |s|
    decreases |s|, 1
  {
    match ParseValue(s)
    case Fail => Fail
    case Ok(v, t0) =>
      var t := SkipWs(t0);
      if t == [] then Fail
      else if t[0] == ']' then Ok([v], t[1..])
      else if t[0] != ',' then Fail
      else
        match ParseItems(SkipWs(t[1..]))
        case Fail => Fail
        case Ok(vs, rest) => Ok([v] + vs, rest)
  }

  function ParseMember(s: string): (r: Parsed<KV<Json>>)
    ensures r.Ok? ==> |r.rest| < |s|
    decreases |s|, 1
  {
    if s == [] || s[0] != '"' then Fail
    else
      match ParseChars(s[1..])
      case Fail => Fail
      case Ok(k, t0) =>
        var t := SkipWs(t0);
        if t == [] || t[0] != ':' then Fail
        else
          match ParseValue(SkipWs(t[1..]))
          case Fail => Fail
          case Ok(v, rest) => Ok(KV(k, v), rest)
  }

  function ParseMembers(s: string): (r: Parsed<seq<KV<Json>>>)
    ensures r.Ok? ==> |r.rest| < |s|
    decreases |s|, 2
  {
    match ParseMember(s)
    case Fail => Fail
    case Ok(kv, t0) =>
      var t := SkipWs(t0);
      if t == [] then Fail
      else if t[0] == '}' then Ok([kv], t[1..])
      else if t[0] != ',' then Fail
      else
        match ParseMembers(SkipWs(t[1..]))
        case Fail => Fail
        case Ok(kvs, rest) => Ok([kv] + kvs, rest)
  }

  /** `json.loads`: one value with nothing but white space around it. */
  function Loads(s: string): Parsed<Json> {
    match ParseValue(SkipWs(s))
    case Fail => Fail
    case Ok(v, rest) => if SkipWs(rest) == [] then Ok(v, "") else Fail
  }
}
