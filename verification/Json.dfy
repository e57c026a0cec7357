/** The JSON that the audit log is written in: the canonical printer of audit.py, `_canon`, and a
    parser for it.

    An object is a list of fields in increasing key order, which is all that sort_keys shows of a
    dict. Numbers with a fraction or an exponent and escaped lone surrogates are outside the model:
    the parser refuses them. */
module Json {
  import opened Prelude
  import opened Text

  datatype Json = Null | Bool(b: bool) | Int(n: int) | Str(s: string) | Arr(items: seq<Json>) | Obj(fields: seq<Field>)

  datatype Field = Field(key: string, value: Json)

  // ---- key order -----------------------------------------------------------------------------

  // String order by code point.
  predicate Less(a: string, b: string) {
    if b == "" then false
    else if a == "" then true
    else if a[0] == b[0] then Less(a[1..], b[1..])
    else a[0] < b[0]
  }

  lemma {:induction false} LessTotal(a: string, b: string)
    ensures a == b || Less(a, b) || Less(b, a)
    ensures !(Less(a, b) && Less(b, a)) && !Less(a, a)
  {
    if a != "" && b != "" && a[0] == b[0] {
      LessTotal(a[1..], b[1..]);
      assert a == [a[0]] + a[1..] && b == [b[0]] + b[1..];
    }
    if a != "" {
      LessTotal(a[1..], a[1..]);
    }
  }

  lemma {:induction false} LessTransitive(a: string, b: string, c: string)
    requires Less(a, b) && Less(b, c)
    ensures Less(a, c)
  {
    if a != "" && a[0] == b[0] == c[0] {
      LessTransitive(a[1..], b[1..], c[1..]);
    }
  }

  ghost predicate Sorted(fields: seq<Field>) {
    forall i, j | 0 <= i < j < |fields| :: Less(fields[i].key, fields[j].key)
  }

  // d[key] = value, in key order.
  function Insert(fields: seq<Field>, f: Field): seq<Field> {
    if fields == [] then [f]
    else if f.key == fields[0].key then [f] + fields[1..]
    else if Less(f.key, fields[0].key) then [f] + fields
    else [fields[0]] + Insert(fields[1..], f)
  }

  // dict(pairs): a repeated key keeps its last value.
  function Dict(pairs: seq<Field>): seq<Field> {
    if pairs == [] then [] else Insert(Dict(pairs[..|pairs| - 1]), pairs[|pairs| - 1])
  }

  // A new key goes between the smaller and the greater ones.
  lemma {:induction false} InsertBetween(a: seq<Field>, b: seq<Field>, f: Field)
    requires (forall g <- a :: Less(g.key, f.key)) && (b != [] ==> Less(f.key, b[0].key))
    ensures Insert(a + b, f) == a + [f] + b
  {
    if a == [] {
      assert a + b == b;
      if b != [] {
        LessTotal(f.key, b[0].key);
      }
    } else {
      assert a[0] in a && (a + b)[1..] == a[1..] + b;
      LessTotal(a[0].key, f.key);
      InsertBetween(a[1..], b, f);
      assert a + [f] + b == [a[0]] + (a[1..] + [f] + b);
    }
  }

  lemma {:induction false} DictOfSorted(fields: seq<Field>)
    requires Sorted(fields)
    ensures Dict(fields) == fields
  {
    if fields != [] {
      var init, f := fields[..|fields| - 1], fields[|fields| - 1];
      DictOfSorted(init);
      InsertBetween(init, [], f);
      assert init + [] == init && init + [f] + [] == fields;
    }
  }

  lemma {:induction false} InsertSorted(fields: seq<Field>, f: Field)
    requires Sorted(fields)
    ensures Sorted(Insert(fields, f))
    ensures forall g <- Insert(fields, f) :: g == f || g in fields
  {
    if fields != [] {
      var head, tail := fields[0], fields[1..];
      InsertSorted(tail, f);
      if f.key == head.key {
        assert Sorted([f] + tail);
      } else if Less(f.key, head.key) {
        forall g <- tail
          ensures Less(f.key, g.key)
        {
          LessTransitive(f.key, head.key, g.key);
        }
      } else {
        LessTotal(f.key, head.key);
        var rest := Insert(tail, f);
        forall g <- rest
          ensures Less(head.key, g.key)
        {
        }
      }
    }
  }

  // Values as Python holds them: every object in key order.
  ghost predicate WellFormed(v: Json) {
    match v
    case Arr(items) => forall x <- items :: WellFormed(x)
    case Obj(fields) => Sorted(fields) && forall f <- fields :: WellFormed(f.value)
    case _ => true
  }

  lemma {:induction false} DictWellFormed(pairs: seq<Field>)
    requires forall f <- pairs :: WellFormed(f.value)
    ensures WellFormed(Obj(Dict(pairs)))
  {
    if pairs != [] {
      var init := pairs[..|pairs| - 1];
      DictWellFormed(init);
      InsertSorted(Dict(init), pairs[|pairs| - 1]);
      assert pairs[|pairs| - 1] in pairs;
    }
  }

  // ---- printing ------------------------------------------------------------------------------

  function HexDigit(d: nat): char
    requires d < 16
  {
    if d < 10 then ('0' as int + d) as char else ('a' as int + d - 10) as char
  }

  function Hex4(n: nat): string
    requires n < 0x10000
  {
    [HexDigit(n / 16 / 16 / 16), HexDigit(n / 16 / 16 % 16), HexDigit(n / 16 % 16), HexDigit(n % 16)]
  }

  // The surrogate pair of a code point beyond 0xFFFF.
  function High(n: nat): nat
    requires 0x10000 <= n < 0x110000
  {
    0xD800 + (n - 0x10000) / 0x400
  }

  function Low(n: nat): nat
    requires 0x10000 <= n < 0x110000
  {
    0xDC00 + (n - 0x10000) % 0x400
  }

  // What follows the first \\u of an escape.
  function CodeText(c: char): string {
    var n := c as int;
    if n < 0x10000 then Hex4(n) else Hex4(High(n)) + "\\u" + Hex4(Low(n))
  }

  // ensure_ascii: everything outside ' '..'~' is escaped.
  function EscapeChar(c: char): string {
    var n := c as int;
    if c == '"' then "\\\""
    else if c == '\\' then "\\\\"
    else if c == '\n' then "\\n"
    else if c == '\r' then "\\r"
    else if c == '\t' then "\\t"
    else if n == 8 then "\\b"
    else if n == 12 then "\\f"
    else if ' ' <= c <= '~' then [c]
    else "\\u" + CodeText(c)
  }

  function Escape(s: string): string {
    if s == "" then "" else EscapeChar(s[0]) + Escape(s[1..])
  }

  function Quote(s: string): string {
    "\"" + Escape(s) + "\""
  }

  function Canon(v: Json): string
    decreases v
  {
    match v
    case Null => "null"
    case Bool(b) => if b then "true" else "false"
    case Int(n) => Decimal(n)
    case Str(s) => Quote(s)
    case Arr(items) => "[" + CanonItems(items) + "]"
    case Obj(fields) => "{" + CanonFields(fields) + "}"
  }

  function CanonItems(items: seq<Json>): string
    decreases items
  {
    if items == [] then ""
    else Canon(items[0]) + if |items| == 1 then "" else "," + CanonItems(items[1..])
  }

  function CanonFields(fields: seq<Field>): string
    decreases fields
  {
    if fields == [] then ""
    else Quote(fields[0].key) + ":" + Canon(fields[0].value)
         + if |fields| == 1 then "" else "," + CanonFields(fields[1..])
  }

  // ---- parsing -------------------------------------------------------------------------------

  predicate IsSpace(c: char) {
    c == ' ' || c == '\t' || c == '\n' || c == '\r'
  }

  function SkipSpace(s: string): (r: string)
    ensures |r| <= |s|
  {
    if s != "" && IsSpace(s[0]) then SkipSpace(s[1..]) else s
  }

  function HexValue(c: char): Option<nat> {
    if '0' <= c <= '9' then Some(c as int - '0' as int)
    else if 'a' <= c <= 'f' then Some(c as int - 'a' as int + 10)
    else if 'A' <= c <= 'F' then Some(c as int - 'A' as int + 10)
    else None
  }

  function ReadHex4(s: string): (r: Option<nat>)
    ensures r.Some? ==> |s| >= 4 && r.value < 0x10000
  {
    if |s| < 4 || HexValue(s[0]).None? || HexValue(s[1]).None? || HexValue(s[2]).None? || HexValue(s[3]).None? then None
    else
      var hi, lo := HexValue(s[0]).value * 16 + HexValue(s[1]).value, HexValue(s[2]).value * 16 + HexValue(s[3]).value;
      Some(hi * 256 + lo)
  }

  datatype Parsed<+T> = Fail | Ok(value: T, rest: string)

  // One escape, after its backslash.
  function ReadEscape(s: string): (r: Parsed<char>)
    ensures r.Ok? ==> |r.rest| < |s|
  {
    if s == "" then Fail
    else match s[0]
    case '"' => Ok('"', s[1..])
    case '\\' => Ok('\\', s[1..])
    case '/' => Ok('/', s[1..])
    case 'b' => Ok(8 as char, s[1..])
    case 'f' => Ok(12 as char, s[1..])
    case 'n' => Ok('\n', s[1..])
    case 'r' => Ok('\r', s[1..])
    case 't' => Ok('\t', s[1..])
    case 'u' => ReadCodePoint(s[1..])
    case _ => Fail
  }

  function ReadCodePoint(s: string): (r: Parsed<char>)
    ensures r.Ok? ==> |r.rest| <= |s|
  {
    var hi := ReadHex4(s);
    if hi.None? then Fail
    else if hi.value < 0xD800 || 0xE000 <= hi.value then Ok(hi.value as char, s[4..])
    else if hi.value < 0xDC00 && |s| >= 6 && s[4] == '\\' && s[5] == 'u' then
      var lo := ReadHex4(s[6..]);
      if lo.Some? && 0xDC00 <= lo.value < 0xE000
      then Ok((0x10000 + (hi.value - 0xD800) * 0x400 + (lo.value - 0xDC00)) as char, s[10..])
      else Fail
    else Fail
  }

  // The rest of a string, after its opening quote.
  function ReadString(s: string): (r: Parsed<string>)
    ensures r.Ok? ==> |r.rest| < |s|
    decreases |s|
  {
    if s == "" || s[0] < ' ' then Fail
    else if s[0] == '"' then Ok("", s[1..])
    else if s[0] == '\\' then
      match ReadEscape(s[1..])
      case Fail => Fail
      case Ok(c, rest) =>
        match ReadString(rest)
        case Fail => Fail
        case Ok(t, rest') => Ok([c] + t, rest')
    else
      match ReadString(s[1..])
      case Fail => Fail
      case Ok(t, rest') => Ok([s[0]] + t, rest')
  }

  // Number of leading digits.
  function Digits(s: string): (k: nat)
    ensures k <= |s|
  {
    if s != "" && IsDigit(s[0]) then 1 + Digits(s[1..]) else 0
  }

  // -?(0|[1-9][0-9]*)
  function ReadInt(s: string): (r: Parsed<int>)
    ensures r.Ok? ==> |r.rest| < |s|
  {
    var sign := if s != "" && s[0] == '-' then 1 else 0;
    var k := Digits(s[sign..]);
    if k == 0 then Fail
    else
      var n := sign + if s[sign] == '0' then 1 else k;
      Ok(ReadDecimal(s[..n]), s[n..])
  }

  predicate StartsWith(s: string, prefix: string) {
    |prefix| <= |s| && s[..|prefix|] == prefix
  }

  function ReadValue(s: string): (r: Parsed<Json>)
    ensures r.Ok? ==> |r.rest| < |s|
    ensures r.Ok? ==> WellFormed(r.value)
    decreases |s|, 0
  {
    if s == "" then Fail
    else if s[0] == '"' then
      match ReadString(s[1..])
      case Fail => Fail
      case Ok(t, rest) => Ok(Str(t), rest)
    else if s[0] == '[' then
      var t := SkipSpace(s[1..]);
      if t != "" && t[0] == ']' then Ok(Arr([]), t[1..])
      else
        match ReadItems(t)
        case Fail => Fail
        case Ok(items, rest) => Ok(Arr(items), rest)
    else if s[0] == '{' then
      var t := SkipSpace(s[1..]);
      if t != "" && t[0] == '}' then Ok(Obj([]), t[1..])
      else
        match ReadFields(t)
        case Fail => Fail
        case Ok(pairs, rest) =>
          DictWellFormed(pairs);
          Ok(Obj(Dict(pairs)), rest)
    else if StartsWith(s, "null") then Ok(Null, s[4..])
    else if StartsWith(s, "true") then Ok(Bool(true), s[4..])
    else if StartsWith(s, "false") then Ok(Bool(false), s[5..])
    else
      match ReadInt(s)
      case Fail => Fail
      case Ok(n, rest) => Ok(Int(n), rest)
  }

  // One or more items and the closing bracket.
  function ReadItems(s: string): (r: Parsed<seq<Json>>)
    ensures r.Ok? ==> |r.rest| < |s|
    ensures r.Ok? ==> forall x <- r.value :: WellFormed(x)
    decreases |s|, 1
  {
    match ReadValue(s)
    case Fail => Fail
    case Ok(v, rest) =>
      var t := SkipSpace(rest);
      if t == "" then Fail
      else if t[0] == ']' then Ok([v], t[1..])
      else if t[0] == ',' then
        match ReadItems(SkipSpace(t[1..]))
        case Fail => Fail
        case Ok(items, rest') => Ok([v] + items, rest')
      else Fail
  }

  // One or more fields and the closing brace.
  function ReadFields(s: string): (r: Parsed<seq<Field>>)
    ensures r.Ok? ==> |r.rest| < |s|
    ensures r.Ok? ==> forall f <- r.value :: WellFormed(f.value)
    decreases |s|, 1
  {
    if s == "" || s[0] != '"' then Fail
    else match ReadString(s[1..])
    case Fail => Fail
    case Ok(key, rest) =>
      var colon := SkipSpace(rest);
      if colon == "" || colon[0] != ':' then Fail
      else match ReadValue(SkipSpace(colon[1..]))
      case Fail => Fail
      case Ok(v, rest') =>
        var t := SkipSpace(rest');
        if t == "" then Fail
        else if t[0] == '}' then Ok([Field(key, v)], t[1..])
        else if t[0] == ',' then
          match ReadFields(SkipSpace(t[1..]))
          case Fail => Fail
          case Ok(fields, rest'') => Ok([Field(key, v)] + fields, rest'')
        else Fail
  }

  // json.loads
  function Parse(s: string): (r: Option<Json>)
    ensures r.Some? ==> WellFormed(r.value)
  {
    match ReadValue(SkipSpace(s))
    case Fail => None
    case Ok(v, rest) => if SkipSpace(rest) == "" then Some(v) else None
  }
}
