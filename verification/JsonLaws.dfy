/** Parsing undoes canonical printing, on every value and whatever follows it. */
module JsonLaws {
  import opened Prelude
  import opened Text
  import opened Json

  lemma {:induction false} HexDigitReads(d: nat)
    requires d < 16
    ensures HexValue(HexDigit(d)) == Some(d)
  {
  }

  lemma {:induction false} Hex4Reads(n: nat, t: string)
    requires n < 0x10000
    ensures ReadHex4(Hex4(n) + t) == Some(n) && (Hex4(n) + t)[4..] == t
  {
    var x, y := n / 16, n / 16 / 16;
    assert n == 16 * x + n % 16 && x == 16 * y + x % 16 && y == 16 * (y / 16) + y % 16;
    HexDigitReads(y / 16);
    HexDigitReads(y % 16);
    HexDigitReads(x % 16);
    HexDigitReads(n % 16);
  }

  // The two halves of a character beyond 0xFFFF.
  lemma {:induction false} PairReads(hi: nat, lo: nat, t: string)
    requires 0xD800 <= hi < 0xDC00 <= lo < 0xE000
    ensures ReadCodePoint(Hex4(hi) + "\\u" + Hex4(lo) + t)
            == Ok((0x10000 + (hi - 0xD800) * 0x400 + (lo - 0xDC00)) as char, t)
  {
    var tail := "\\u" + Hex4(lo) + t;
    var s := Hex4(hi) + tail;
    assert s == Hex4(hi) + "\\u" + Hex4(lo) + t;
    Hex4Reads(hi, tail);
    Hex4Reads(lo, t);
    assert s[4] == '\\' && s[5] == 'u';
    assert s[6..] == Hex4(lo) + t;
    assert s[10..] == t;
  }

  lemma {:induction false} Halves(n: nat)
    requires 0x10000 <= n < 0x110000
    ensures 0xD800 <= High(n) < 0xDC00 <= Low(n) < 0xE000
    ensures n == 0x10000 + (High(n) - 0xD800) * 0x400 + (Low(n) - 0xDC00)
  {
  }

  lemma {:induction false} ShortCodeReads(c: char, t: string)
    requires c as int < 0x10000
    ensures ReadCodePoint(CodeText(c) + t) == Ok(c, t)
  {
    Hex4Reads(c as int, t);
  }

  lemma {:induction false} LongCodeReads(c: char, t: string)
    requires c as int >= 0x10000
    ensures ReadCodePoint(CodeText(c) + t) == Ok(c, t)
  {
    var n := c as int;
    Halves(n);
    PairReads(High(n), Low(n), t);
  }

  lemma {:induction false} CodePointReads(c: char, t: string)
    ensures ReadCodePoint(CodeText(c) + t) == Ok(c, t)
  {
    if c as int < 0x10000 {
      ShortCodeReads(c, t);
    } else {
      LongCodeReads(c, t);
    }
  }

  lemma {:induction false} EscapeStep(s: string, c: char, t: string, u: string, rest: string)
    requires s != "" && s[0] == '\\' && ReadEscape(s[1..]) == Ok(c, t) && ReadString(t) == Ok(u, rest)
    ensures ReadString(s) == Ok([c] + u, rest)
  {
  }

  lemma {:induction false} LongEscapeText(c: char)
    requires |EscapeChar(c)| > 2
    ensures EscapeChar(c) == "\\u" + CodeText(c)
  {
  }

  lemma {:induction false} UnicodeReads(x: string, t: string)
    ensures var s := "\\u" + x + t; s[0] == '\\' && ReadEscape(s[1..]) == ReadCodePoint(x + t)
  {
    var s := "\\u" + x + t;
    assert s[1..][0] == 'u' && s[1..][1..] == x + t;
  }

  lemma {:induction false} LongEscapeReads(c: char, t: string)
    requires |EscapeChar(c)| > 2
    ensures var s := EscapeChar(c) + t; s[0] == '\\' && ReadEscape(s[1..]) == Ok(c, t)
  {
    CodePointReads(c, t);
    LongEscapeText(c);
    UnicodeReads(CodeText(c), t);
  }

  lemma {:induction false} ShortEscapeReads(c: char, t: string)
    requires |EscapeChar(c)| == 2
    ensures var s := EscapeChar(c) + t; s[0] == '\\' && ReadEscape(s[1..]) == Ok(c, t)
  {
    var s := EscapeChar(c) + t;
    assert s[1..][1..] == t && s[1..][0] == EscapeChar(c)[1];
  }

  lemma {:induction false} CharReads(c: char, t: string, u: string, rest: string)
    requires ReadString(t) == Ok(u, rest)
    ensures ReadString(EscapeChar(c) + t) == Ok([c] + u, rest)
  {
    var s := EscapeChar(c) + t;
    if |EscapeChar(c)| == 1 {
      assert EscapeChar(c) == [c] && s[0] == c && s[1..] == t;
    } else {
      if |EscapeChar(c)| == 2 {
        ShortEscapeReads(c, t);
      } else {
        LongEscapeReads(c, t);
      }
      EscapeStep(s, c, t, u, rest);
    }
  }

  lemma {:induction false} Regroup(a: string, b: string, c: string, d: string)
    ensures (a + b) + c + d == a + (b + c + d)
  {
  }

  lemma {:induction false} StringReads(s: string, rest: string)
    ensures ReadString(Escape(s) + "\"" + rest) == Ok(s, rest)
  {
    if s == "" {
      var q := "\"" + rest;
      assert Escape(s) + "\"" + rest == q && q[1..] == rest;
    } else {
      var t := Escape(s[1..]) + "\"" + rest;
      StringReads(s[1..], rest);
      CharReads(s[0], t, s[1..], rest);
      Regroup(EscapeChar(s[0]), Escape(s[1..]), "\"", rest);
      assert s == [s[0]] + s[1..];
    }
  }

  lemma {:induction false} QuoteText(s: string, rest: string)
    ensures Quote(s) != "" && (Quote(s) + rest)[0] == '"'
    ensures (Quote(s) + rest)[1..] == Escape(s) + "\"" + rest
  {
  }

  lemma {:induction false} QuoteReads(s: string, rest: string)
    ensures Quote(s) != "" && (Quote(s) + rest)[0] == '"'
    ensures ReadString((Quote(s) + rest)[1..]) == Ok(s, rest)
  {
    QuoteText(s, rest);
    StringReads(s, rest);
  }

  ghost predicate Ends(rest: string) {
    rest == "" || !IsDigit(rest[0])
  }

  lemma {:induction false} DigitsOf(s: string, rest: string)
    requires forall c <- s :: IsDigit(c)
    requires Ends(rest)
    ensures Digits(s + rest) == |s|
  {
    if s == "" {
      assert s + rest == rest;
    } else {
      assert (s + rest)[1..] == s[1..] + rest;
      DigitsOf(s[1..], rest);
    }
  }

  // Digits that are not led by an idle zero, after an optional minus.
  lemma {:induction false} SignedDigitsRead(sign: nat, d: string, rest: string)
    requires sign <= 1 && d != "" && (forall c <- d :: IsDigit(c)) && (|d| > 1 ==> d[0] != '0') && Ends(rest)
    ensures var t := (if sign == 1 then "-" else "") + d; ReadInt(t + rest) == Ok(ReadDecimal(t), rest)
  {
    var t := (if sign == 1 then "-" else "") + d;
    var s := t + rest;
    DigitsOf(d, rest);
    assert d[0] in d;
    assert s[sign..] == d + rest && s[sign] == d[0];
    assert s[..|t|] == t && s[|t|..] == rest;
  }

  lemma {:induction false} IntReads(n: int, rest: string)
    requires Ends(rest)
    ensures ReadInt(Decimal(n) + rest) == Ok(n, rest)
    ensures var c := Decimal(n)[0]; c == '-' || IsDigit(c)
  {
    var m, sign := if n < 0 then -n else n, if n < 0 then 1 else 0;
    DecimalNatReads(m);
    DecimalReads(n);
    SignedDigitsRead(sign, DecimalNat(m), rest);
    assert Decimal(n) == (if sign == 1 then "-" else "") + DecimalNat(m);
    assert Decimal(n)[0] in Decimal(n);
  }

  // ---- every canonical text is one printable line --------------------------------------------

  ghost predicate Printable(s: string) {
    forall c <- s :: ' ' <= c <= '~'
  }

  lemma {:induction false} Hex4Printable(n: nat)
    requires n < 0x10000
    ensures Printable(Hex4(n))
  {
  }

  lemma {:induction false} CodeTextPrintable(c: char)
    ensures Printable(CodeText(c))
  {
    var n := c as int;
    if n < 0x10000 {
      Hex4Printable(n);
    } else {
      Halves(n);
      Hex4Printable(High(n));
      Hex4Printable(Low(n));
    }
  }

  lemma {:induction false} EscapeCharPrintable(c: char)
    ensures Printable(EscapeChar(c))
  {
    CodeTextPrintable(c);
  }

  lemma {:induction false} EscapePrintable(s: string)
    ensures Printable(Escape(s))
  {
    if s != "" {
      EscapePrintable(s[1..]);
      EscapeCharPrintable(s[0]);
    }
  }

  lemma {:induction false} CanonPrintable(v: Json)
    ensures Printable(Canon(v)) && Canon(v) != ""
    ensures Canon(v)[0] != ' ' && Canon(v)[0] != ']' && Canon(v)[0] != '}'
    decreases v
  {
    match v
    case Int(n) =>
      DecimalReads(n);
      assert Decimal(n)[0] in Decimal(n);
    case Str(s) => EscapePrintable(s);
    case Arr(items) => ItemsPrintable(items);
    case Obj(fields) => FieldsPrintable(fields);
    case _ =>
  }

  lemma {:induction false} ItemsPrintable(items: seq<Json>)
    ensures Printable(CanonItems(items))
    decreases items
  {
    if items != [] {
      CanonPrintable(items[0]);
      ItemsPrintable(items[1..]);
    }
  }

  lemma {:induction false} FieldsPrintable(fields: seq<Field>)
    ensures Printable(CanonFields(fields))
    decreases fields
  {
    if fields != [] {
      EscapePrintable(fields[0].key);
      CanonPrintable(fields[0].value);
      FieldsPrintable(fields[1..]);
    }
  }

  lemma {:induction false} NoSpaceToSkip(v: Json, t: string)
    ensures SkipSpace(Canon(v) + t) == Canon(v) + t
    ensures (Canon(v) + t)[0] == Canon(v)[0]
  {
    CanonPrintable(v);
    assert Canon(v)[0] in Canon(v);
  }

  // ---- the round trip ------------------------------------------------------------------------

  lemma {:induction false} LiteralReads(v: Json, rest: string)
    requires v.Null? || v.Bool?
    ensures ReadValue(Canon(v) + rest) == Ok(v, rest)
  {
    var s := Canon(v) + rest;
    assert s[..|Canon(v)|] == Canon(v) && s[|Canon(v)|..] == rest;
    if v == Bool(true) {
      assert s[..4][0] == 't';
    } else if v == Bool(false) {
      assert s[..4][0] == 'f';
    }
  }

  lemma {:induction false} NumberReads(n: int, rest: string)
    requires Ends(rest)
    ensures ReadValue(Canon(Int(n)) + rest) == Ok(Int(n), rest)
  {
    IntReads(n, rest);
    var s := Canon(Int(n)) + rest;
    assert s[0] == Decimal(n)[0];
    assert !StartsWith(s, "null") && !StartsWith(s, "true") && !StartsWith(s, "false") by {
      assert |s| >= 4 ==> s[..4][0] == s[0];
      assert |s| >= 5 ==> s[..5][0] == s[0];
    }
  }

  lemma {:induction false} ValueReads(v: Json, rest: string)
    requires WellFormed(v) && Ends(rest)
    ensures ReadValue(Canon(v) + rest) == Ok(v, rest)
    decreases v, 1
  {
    match v
    case Null => LiteralReads(v, rest);
    case Bool(b) => LiteralReads(v, rest);
    case Int(n) => NumberReads(n, rest);
    case Str(t) => QuoteReads(t, rest);
    case Arr(items) =>
      if items != [] {
        ItemsRead(items, rest);
      }
      ArrayReads(items, rest);
    case Obj(fields) =>
      if fields != [] {
        FieldsRead(fields, rest);
      }
      ObjectReads(fields, rest);
  }

  lemma {:induction false} BracketReads(t: string, items: seq<Json>, rest: string)
    requires SkipSpace(t) == t && t != "" && t[0] != ']' && ReadItems(t) == Ok(items, rest)
    ensures ReadValue("[" + t) == Ok(Arr(items), rest)
  {
    assert ("[" + t)[1..] == t;
  }

  lemma {:induction false} BraceReads(t: string, fields: seq<Field>, rest: string)
    requires SkipSpace(t) == t && t != "" && t[0] != '}' && ReadFields(t) == Ok(fields, rest)
    ensures ReadValue("{" + t) == Ok(Obj(Dict(fields)), rest)
  {
    assert ("{" + t)[1..] == t;
  }

  lemma {:induction false} EmptyReads(rest: string)
    ensures ReadValue("[]" + rest) == Ok(Arr([]), rest)
    ensures ReadValue("{}" + rest) == Ok(Obj([]), rest)
  {
    assert ("[]" + rest)[1..] == "]" + rest && ("]" + rest)[1..] == rest;
    assert ("{}" + rest)[1..] == "}" + rest && ("}" + rest)[1..] == rest;
  }

  lemma {:induction false} ArrayReads(items: seq<Json>, rest: string)
    requires var t := CanonItems(items) + "]" + rest;
             items != [] ==> SkipSpace(t) == t && t[0] != ']' && ReadItems(t) == Ok(items, rest)
    ensures ReadValue(Canon(Arr(items)) + rest) == Ok(Arr(items), rest)
  {
    if items == [] {
      EmptyReads(rest);
      assert Canon(Arr(items)) == "[]";
    } else {
      var t := CanonItems(items) + "]" + rest;
      BracketReads(t, items, rest);
      assert Canon(Arr(items)) + rest == "[" + t;
    }
  }

  lemma {:induction false} ObjectReads(fields: seq<Field>, rest: string)
    requires Sorted(fields)
    requires var t := CanonFields(fields) + "}" + rest;
             fields != [] ==> SkipSpace(t) == t && t[0] != '}' && ReadFields(t) == Ok(fields, rest)
    ensures ReadValue(Canon(Obj(fields)) + rest) == Ok(Obj(fields), rest)
  {
    if fields == [] {
      EmptyReads(rest);
      assert Canon(Obj(fields)) == "{}";
    } else {
      var t := CanonFields(fields) + "}" + rest;
      DictOfSorted(fields);
      BraceReads(t, fields, rest);
      assert Canon(Obj(fields)) + rest == "{" + t;
    }
  }

  lemma {:induction false} LastItemReads(v: Json, rest: string)
    requires ReadValue(Canon(v) + ("]" + rest)) == Ok(v, "]" + rest)
    ensures ReadItems(Canon(v) + ("]" + rest)) == Ok([v], rest)
  {
    assert ("]" + rest)[1..] == rest;
  }

  lemma {:induction false} NextItemReads(v: Json, u: string, more: seq<Json>, rest: string)
    requires ReadValue(Canon(v) + ("," + u)) == Ok(v, "," + u)
    requires SkipSpace(u) == u && ReadItems(u) == Ok(more, rest)
    ensures ReadItems(Canon(v) + ("," + u)) == Ok([v] + more, rest)
  {
    assert ("," + u)[1..] == u;
  }

  // What follows the first item.
  function ItemsTail(items: seq<Json>, rest: string): string
    requires items != []
  {
    if |items| == 1 then "]" + rest else "," + (CanonItems(items[1..]) + "]" + rest)
  }

  lemma {:induction false} ItemsText(items: seq<Json>, rest: string)
    requires items != []
    ensures CanonItems(items) + "]" + rest == Canon(items[0]) + ItemsTail(items, rest)
  {
  }

  lemma {:induction false} ItemsJoin(items: seq<Json>, rest: string)
    requires items != []
    requires ReadValue(Canon(items[0]) + ItemsTail(items, rest)) == Ok(items[0], ItemsTail(items, rest))
    requires |items| > 1 ==> var u := CanonItems(items[1..]) + "]" + rest;
                             SkipSpace(u) == u && ReadItems(u) == Ok(items[1..], rest)
    ensures ReadItems(Canon(items[0]) + ItemsTail(items, rest)) == Ok(items, rest)
  {
    if |items| == 1 {
      LastItemReads(items[0], rest);
      assert items == [items[0]];
    } else {
      NextItemReads(items[0], CanonItems(items[1..]) + "]" + rest, items[1..], rest);
      assert items == [items[0]] + items[1..];
    }
  }

  lemma {:induction false} ItemsRead(items: seq<Json>, rest: string)
    requires items != [] && forall x <- items :: WellFormed(x)
    ensures var t := CanonItems(items) + "]" + rest;
            SkipSpace(t) == t && t[0] != ']' && ReadItems(t) == Ok(items, rest)
    decreases items, 0
  {
    assert items[0] in items;
    if |items| > 1 {
      ItemsRead(items[1..], rest);
    }
    ValueReads(items[0], ItemsTail(items, rest));
    ItemsJoin(items, rest);
    ItemsText(items, rest);
    NoSpaceToSkip(items[0], ItemsTail(items, rest));
    CanonPrintable(items[0]);
  }

  // One field, and what follows it.
  lemma {:induction false} FieldReads(f: Field, tail: string)
    requires ReadValue(Canon(f.value) + tail) == Ok(f.value, tail)
    ensures var t := Quote(f.key) + (":" + (Canon(f.value) + tail));
            && t[0] == '"' && SkipSpace(t) == t
            && ReadString(t[1..]) == Ok(f.key, ":" + (Canon(f.value) + tail))
            && SkipSpace(":" + (Canon(f.value) + tail)) == ":" + (Canon(f.value) + tail)
            && ReadValue(SkipSpace((":" + (Canon(f.value) + tail))[1..])) == Ok(f.value, tail)
  {
    var value := Canon(f.value) + tail;
    QuoteReads(f.key, ":" + value);
    assert (":" + value)[1..] == value;
    NoSpaceToSkip(f.value, tail);
  }

  lemma {:induction false} FieldStep(t: string, f: Field, tail: string)
    requires t != "" && t[0] == '"' && ReadString(t[1..]) == Ok(f.key, ":" + (Canon(f.value) + tail))
    requires SkipSpace(":" + (Canon(f.value) + tail)) == ":" + (Canon(f.value) + tail)
    requires ReadValue(SkipSpace((":" + (Canon(f.value) + tail))[1..])) == Ok(f.value, tail)
    requires tail != "" && (tail[0] == '}' || tail[0] == ',')
    ensures tail[0] == '}' ==> ReadFields(t) == Ok([f], tail[1..])
    ensures tail[0] == ',' && ReadFields(SkipSpace(tail[1..])).Ok? ==>
              var more := ReadFields(SkipSpace(tail[1..])); ReadFields(t) == Ok([f] + more.value, more.rest)
  {
    assert SkipSpace(tail) == tail;
  }

  // What follows the first field.
  function FieldsTail(fields: seq<Field>, rest: string): string
    requires fields != []
  {
    if |fields| == 1 then "}" + rest else "," + (CanonFields(fields[1..]) + "}" + rest)
  }

  lemma {:induction false} RegroupField(key: string, value: string, more: string, rest: string)
    ensures key + ":" + value + "" + "}" + rest == key + (":" + (value + ("}" + rest)))
    ensures key + ":" + value + ("," + more) + "}" + rest == key + (":" + (value + ("," + (more + "}" + rest))))
  {
  }

  lemma {:induction false} FieldsText(fields: seq<Field>, rest: string)
    requires fields != []
    ensures CanonFields(fields) + "}" + rest
            == Quote(fields[0].key) + (":" + (Canon(fields[0].value) + FieldsTail(fields, rest)))
  {
    RegroupField(Quote(fields[0].key), Canon(fields[0].value), CanonFields(fields[1..]), rest);
  }

  // The first field is read; the others are given.
  lemma {:induction false} FieldsJoin(fields: seq<Field>, rest: string)
    requires fields != [] && Ends(FieldsTail(fields, rest))
    requires ReadValue(Canon(fields[0].value) + FieldsTail(fields, rest))
             == Ok(fields[0].value, FieldsTail(fields, rest))
    requires |fields| > 1 ==> var u := CanonFields(fields[1..]) + "}" + rest;
                              SkipSpace(u) == u && ReadFields(u) == Ok(fields[1..], rest)
    ensures var t := Quote(fields[0].key) + (":" + (Canon(fields[0].value) + FieldsTail(fields, rest)));
            SkipSpace(t) == t && t[0] != '}' && ReadFields(t) == Ok(fields, rest)
  {
    var f, tail := fields[0], FieldsTail(fields, rest);
    FieldReads(f, tail);
    FieldStep(Quote(f.key) + (":" + (Canon(f.value) + tail)), f, tail);
    if |fields| == 1 {
      assert fields == [f] && tail[0] == '}' && tail[1..] == rest;
    } else {
      assert fields == [f] + fields[1..] && tail[0] == ',';
      assert tail[1..] == CanonFields(fields[1..]) + "}" + rest;
    }
  }

  lemma {:induction false} FieldsRead(fields: seq<Field>, rest: string)
    requires fields != [] && forall f <- fields :: WellFormed(f.value)
    ensures var t := CanonFields(fields) + "}" + rest;
            SkipSpace(t) == t && t[0] != '}' && ReadFields(t) == Ok(fields, rest)
    decreases fields, 0
  {
    var f, tail := fields[0], FieldsTail(fields, rest);
    assert f in fields;
    ValueReads(f.value, tail);
    if |fields| > 1 {
      FieldsRead(fields[1..], rest);
    }
    FieldsJoin(fields, rest);
    FieldsText(fields, rest);
  }

  // json.loads undoes the canonical printer.
  lemma {:induction false} CanonParses(v: Json)
    requires WellFormed(v)
    ensures Parse(Canon(v)) == Some(v)
  {
    CanonPrintable(v);
    NoSpaceToSkip(v, "");
    ValueReads(v, "");
    assert Canon(v) + "" == Canon(v);
  }

  // Hence the canonical text determines the value.
  lemma {:induction false} CanonInjective(a: Json, b: Json)
    requires WellFormed(a) && WellFormed(b) && Canon(a) == Canon(b)
    ensures a == b
  {
    CanonParses(a);
    CanonParses(b);
  }
}
