/** What the canonical printer chooses among all the texts that the grammar has for a value. */
module JsonCompact {
  import opened Prelude
  import opened Json
  import opened JsonGrammar
  import opened Text

  // ---- the choice ----------------------------------------------------------------------------

  predicate LowerHex(s: string) {
    forall c <- s :: IsDigit(c) || 'a' <= c <= 'f'
  }

  // Characters that are spelled out.
  predicate SpelledOut(n: nat) {
    n > 126 || (n < 32 && n != 8 && n != 9 && n != 10 && n != 12 && n != 13)
  }

  // Printable ASCII stands for itself, seven characters have a letter, and all others are spelled out.
  predicate CompactGlyph(g: Glyph)
    requires ValidGlyph(g)
  {
    match g
    case Plain(c) => c <= '~'
    case Short(letter) => letter != '/'
    case Code(d) =>
      LowerHex(d) && SpelledOut(Value(d))
    case Pair(h, l) => LowerHex(h) && LowerHex(l)
  }

  // No blanks, no negative zero, and the keys of an object in order, each once.
  ghost predicate Compact(t: Tree)
    requires ValidTree(t)
    decreases t
  {
    match t
    case Word(_) => true
    case Number(s) => s != "-0"
    case Quoted(gs) => forall g <- gs :: CompactGlyph(g)
    case List(gap, items) => gap == "" && forall i <- items :: i.before == "" && i.after == "" && Compact(i.tree)
    case Table(gap, members) =>
      && gap == "" && Sorted(MembersMeaning(members))
      && forall m <- members :: Tight(m) && (forall g <- m.key :: CompactGlyph(g)) && Compact(m.tree)
  }

  predicate Tight(m: Member) {
    m.before == "" && m.beforeColon == "" && m.afterColon == "" && m.after == ""
  }

  // ---- strings -------------------------------------------------------------------------------

  lemma {:induction false} HexOfDigit(c: char)
    requires IsDigit(c) || 'a' <= c <= 'f'
    ensures DigitOf(c) < 16 && HexDigit(DigitOf(c)) == c
  {
  }

  // Four lower-case digits are those of their value.
  lemma {:induction false} HexOfValue(s: string)
    requires FourHex(s) && LowerHex(s)
    ensures Value(s) < 0x10000 && Hex4(Value(s)) == s
  {
    var a, b, c, d := s[0], s[1], s[2], s[3];
    assert a in s && b in s && c in s && d in s;
    HexOfDigit(a);
    HexOfDigit(b);
    HexOfDigit(c);
    HexOfDigit(d);
    FourDigits(DigitOf(a), DigitOf(b), DigitOf(c), DigitOf(d));
    assert s == [a, b, c, d];
  }

  lemma {:induction false} FourDigits(a: nat, b: nat, c: nat, d: nat)
    requires a < 16 && b < 16 && c < 16 && d < 16
    ensures var n := a * 0x1000 + b * 0x100 + c * 0x10 + d;
            n < 0x10000 && Hex4(n) == [HexDigit(a), HexDigit(b), HexDigit(c), HexDigit(d)]
  {
    var n := a * 0x1000 + b * 0x100 + c * 0x10 + d;
    assert n / 16 == a * 0x100 + b * 0x10 + c && n % 16 == d;
    assert n / 16 / 16 == a * 0x10 + b && n / 16 % 16 == c;
    assert n / 16 / 16 / 16 == a && n / 16 / 16 % 16 == b;
  }

  lemma {:induction false} PairHalves(h: nat, l: nat)
    requires 0xD800 <= h < 0xDC00 <= l < 0xE000
    ensures var n := 0x10000 + (h - 0xD800) * 0x400 + (l - 0xDC00);
            0x10000 <= n < 0x110000 && High(n) == h && Low(n) == l
  {
  }

  lemma {:induction false} UnicodeText(d: string)
    ensures "\\u" + d == ['\\'] + (['u'] + d)
  {
  }

  lemma {:induction false} SpelledEscape(c: char)
    requires SpelledOut(c as int)
    ensures EscapeChar(c) == "\\u" + CodeText(c)
  {
  }

  lemma {:induction false} CodeIsEscape(d: string)
    requires ValidGlyph(Code(d)) && CompactGlyph(Code(d))
    ensures ['\\'] + (['u'] + d) == EscapeChar(CodeChar(d))
  {
    HexOfValue(d);
    SpelledEscape(CodeChar(d));
    UnicodeText(d);
  }

  lemma {:induction false} PairText(h: string, l: string)
    ensures ['\\'] + (['u'] + (h + (['\\'] + (['u'] + l)))) == "\\u" + (h + "\\u" + l)
  {
    UnicodeText(l);
    Regroup(h, "\\u", l);
    UnicodeText(h + ("\\u" + l));
  }

  lemma {:induction false} CodeBeyond(c: char)
    requires c as int >= 0x10000
    ensures CodeText(c) == Hex4(High(c as int)) + "\\u" + Hex4(Low(c as int))
  {
  }

  lemma {:induction false} PairCode(h: string, l: string)
    requires ValidGlyph(Pair(h, l)) && CompactGlyph(Pair(h, l))
    ensures CodeText(PairChar(h, l)) == h + "\\u" + l && PairChar(h, l) as int >= 0x10000
  {
    var c := PairChar(h, l);
    PairHalves(Value(h), Value(l));
    assert High(c as int) == Value(h) && Low(c as int) == Value(l);
    CodeBeyond(c);
    HexOfValue(h);
    HexOfValue(l);
  }

  lemma {:induction false} PairIsEscape(h: string, l: string)
    requires ValidGlyph(Pair(h, l)) && CompactGlyph(Pair(h, l))
    ensures ['\\'] + (['u'] + (h + (['\\'] + (['u'] + l)))) == EscapeChar(PairChar(h, l))
  {
    PairCode(h, l);
    SpelledEscape(PairChar(h, l));
    PairText(h, l);
  }

  lemma {:induction false} GlyphIsEscape(g: Glyph)
    requires ValidGlyph(g) && CompactGlyph(g)
    ensures GlyphText(g) == EscapeChar(GlyphChar(g))
  {
    match g
    case Plain(_) =>
    case Short(letter) => ShortIsEscape(letter);
    case Code(d) => CodeIsEscape(d);
    case Pair(h, l) => PairIsEscape(h, l);
  }

  lemma {:induction false} ShortIsEscape(letter: char)
    requires ValidGlyph(Short(letter)) && letter != '/'
    ensures GlyphText(Short(letter)) == EscapeChar(GlyphChar(Short(letter)))
  {
    assert GlyphText(Short(letter)) == ['\\', letter];
  }

  lemma {:induction false} GlyphsAreEscape(gs: seq<Glyph>)
    requires ValidGlyphs(gs) && forall g <- gs :: CompactGlyph(g)
    ensures GlyphsText(gs) == Escape(GlyphsString(gs))
  {
    if gs != [] {
      assert gs[0] in gs;
      GlyphIsEscape(gs[0]);
      GlyphsAreEscape(gs[1..]);
      var s := GlyphsString(gs);
      assert s[0] == GlyphChar(gs[0]) && s[1..] == GlyphsString(gs[1..]);
    }
  }

  // ---- numbers -------------------------------------------------------------------------------

  lemma {:induction false} DivTen(q: nat, r: nat)
    requires r < 10
    ensures (10 * q + r) / 10 == q && (10 * q + r) % 10 == r
  {
  }

  lemma {:induction false} OneDigit(c: char)
    requires IsDigit(c)
    ensures ReadNat([c]) == DigitValue(c) < 10 && Digit(DigitValue(c)) == c
  {
    assert [c][..0] == "" && ReadNat("") == 0;
  }

  lemma {:induction false} ReadSnoc(init: string, last: char)
    ensures ReadNat(init + [last]) == 10 * ReadNat(init) + DigitValue(last)
  {
    var d := init + [last];
    assert d[..|d| - 1] == init;
  }

  lemma {:induction false} DecimalSnoc(n: nat, c: char)
    requires n >= 1 && IsDigit(c)
    ensures DecimalNat(10 * n + DigitValue(c)) == DecimalNat(n) + [c]
  {
    DivTen(n, DigitValue(c));
    OneDigit(c);
  }

  lemma {:induction false} DigitValues(d: string)
    requires d != "" && (forall c <- d :: IsDigit(c)) && (d[0] == '0' ==> |d| == 1)
    ensures DecimalNat(ReadNat(d)) == d && (d[0] != '0' ==> ReadNat(d) >= 1)
  {
    var init, last := d[..|d| - 1], d[|d| - 1];
    assert last in d && d == init + [last];
    OneDigit(last);
    if |d| == 1 {
      assert d == [last];
    } else {
      assert init[0] == d[0];
      forall c <- init
        ensures IsDigit(c)
      {
        assert c in d;
      }
      DigitValues(init);
      ReadSnoc(init, last);
      DecimalSnoc(ReadNat(init), last);
    }
  }

  lemma {:induction false} NegativeDecimal(d: string)
    requires d != "" && d[0] != '0' && forall c <- d :: IsDigit(c)
    ensures ['-'] + d == Decimal(ReadDecimal(['-'] + d))
  {
    DigitValues(d);
    Cons('-', d);
  }

  lemma {:induction false} PlainDecimal(d: string)
    requires d != "" && (forall c <- d :: IsDigit(c)) && (d[0] == '0' ==> d == "0")
    ensures d == Decimal(ReadDecimal(d))
  {
    DigitValues(d);
    assert d[0] in d;
  }

  lemma {:induction false} NumberIsDecimal(s: string)
    requires ValidNumber(s) && s != "-0"
    ensures s == Decimal(ReadDecimal(s))
  {
    NumberDigits(s);
    if s[0] == '-' {
      Uncons(s);
      assert s[1..] != "0";
      NegativeDecimal(s[1..]);
    } else {
      PlainDecimal(s);
    }
  }

  // ---- trees ---------------------------------------------------------------------------------

  lemma {:induction false} QuotedIsQuote(gs: seq<Glyph>)
    requires ValidGlyphs(gs) && forall g <- gs :: CompactGlyph(g)
    ensures ['"'] + (GlyphsText(gs) + ['"']) == Quote(GlyphsString(gs))
  {
    GlyphsAreEscape(gs);
  }

  lemma {:induction false} StringIsCanon(gs: seq<Glyph>)
    requires ValidTree(Quoted(gs)) && Compact(Quoted(gs))
    ensures TreeText(Quoted(gs)) == Canon(Str(GlyphsString(gs)))
  {
    QuotedIsQuote(gs);
  }

  lemma {:induction false} NumeralIsCanon(s: string)
    requires ValidTree(Number(s)) && Compact(Number(s))
    ensures s == Canon(Int(ReadDecimal(s)))
  {
    NumberIsDecimal(s);
  }

  lemma {:induction false} WordIsCanon(w: string)
    requires ValidTree(Word(w))
    ensures w == Canon(Meaning(Word(w)))
  {
  }

  // Every compact tree is the canonical text of its value.
  lemma {:induction false} CompactIsCanon(t: Tree)
    requires ValidTree(t) && Compact(t)
    ensures TreeText(t) == Canon(Meaning(t))
    decreases t
  {
    match t
    case Word(w) => WordIsCanon(w);
    case Number(s) => NumeralIsCanon(s);
    case Quoted(gs) => StringIsCanon(gs);
    case List(gap, items) =>
      ListIsCanon(gap, items);
    case Table(gap, members) =>
      TableIsCanon(gap, members);
  }

  lemma {:induction false} ListIsCanon(gap: string, items: seq<Item>)
    requires ValidTree(List(gap, items)) && Compact(List(gap, items))
    ensures TreeText(List(gap, items)) == Canon(Arr(ItemsMeaning(items)))
    decreases items, 1
  {
    if items != [] {
      ItemsAreCanon(items);
      Regroup("[", CanonItems(ItemsMeaning(items)), "]");
    }
  }

  lemma {:induction false} TableIsCanon(gap: string, members: seq<Member>)
    requires ValidTree(Table(gap, members)) && Compact(Table(gap, members))
    ensures TreeText(Table(gap, members)) == Canon(Obj(Dict(MembersMeaning(members))))
    decreases members, 1
  {
    var fields := MembersMeaning(members);
    DictOfSorted(fields);
    if members != [] {
      MembersAreCanon(members);
      Braces(MembersText(members), CanonFields(fields), Obj(fields));
    }
  }

  lemma {:induction false} Braces(text: string, inner: string, v: Json)
    requires v.Obj? && inner == CanonFields(v.fields) && text == inner + "}"
    ensures ['{'] + text == Canon(v)
  {
    Regroup("{", inner, "}");
  }

  // An item without blanks, and a member.
  lemma {:induction false} TightItem(i: Item, tail: string)
    requires i.before == "" && i.after == ""
    ensures i.before + ItemText(i, tail) == TreeText(i.tree) + tail
  {
    Empty(tail);
    Empty(ItemText(i, tail));
  }

  lemma {:induction false} Empty(s: string)
    ensures "" + s == s
  {
  }

  lemma {:induction false} TightText(m: Member, tail: string)
    requires Tight(m)
    ensures m.before + MemberText(m, tail)
            == ['"'] + (GlyphsText(m.key) + ['"']) + ":" + TreeText(m.tree) + tail
  {
    var k, u := GlyphsText(m.key), TreeText(m.tree);
    Empty(tail);
    Empty(u + tail);
    Empty([':'] + (u + tail));
    assert ValueText(m, tail) == [':'] + (u + tail);
    Empty(MemberText(m, tail));
    Unfold(k, u, tail);
  }

  lemma {:induction false} Unfold(k: string, u: string, tail: string)
    ensures ['"'] + (k + (['"'] + ([':'] + (u + tail)))) == ['"'] + (k + ['"']) + ":" + u + tail
  {
  }

  lemma {:induction false} CanonOfItems(vs: seq<Json>)
    requires vs != []
    ensures CanonItems(vs) == if |vs| == 1 then Canon(vs[0]) else Canon(vs[0]) + ("," + CanonItems(vs[1..]))
  {
    if |vs| == 1 {
      assert Canon(vs[0]) + "" == Canon(vs[0]);
    }
  }

  lemma {:induction false} ItemsAreCanon(items: seq<Item>)
    requires items != []
    requires forall i <- items :: ValidTree(i.tree) && i.before == "" && i.after == "" && Compact(i.tree)
    ensures ItemsMeaning(items) != [] && ItemsText(items) == CanonItems(ItemsMeaning(items)) + "]"
    decreases items, 0
  {
    var i, vs := items[0], ItemsMeaning(items);
    assert i in items;
    CompactIsCanon(i.tree);
    CanonOfItems(vs);
    assert vs[0] == Meaning(i.tree) && vs[1..] == ItemsMeaning(items[1..]);
    if |items| == 1 {
      assert items[1..] == [] && |vs| == 1;
      TightItem(i, [']']);
    } else {
      ItemsAreCanon(items[1..]);
      assert |vs| > 1;
      TightItem(i, [','] + ItemsText(items[1..]));
      Close(Canon(vs[0]), CanonItems(vs[1..]), "]");
    }
  }

  lemma {:induction false} Close(a: string, b: string, end: string)
    ensures a + ([','] + (b + end)) == a + ("," + b) + end
  {
  }

  lemma {:induction false} CanonOfFields(fs: seq<Field>)
    requires fs != []
    ensures var one := Quote(fs[0].key) + ":" + Canon(fs[0].value);
            CanonFields(fs) == if |fs| == 1 then one else one + ("," + CanonFields(fs[1..]))
  {
    var one := Quote(fs[0].key) + ":" + Canon(fs[0].value);
    if |fs| == 1 {
      assert one + "" == one;
    }
  }

  lemma {:induction false} MembersAreCanon(members: seq<Member>)
    requires members != []
    requires forall m <- members :: ValidGlyphs(m.key) && ValidTree(m.tree)
               && Tight(m) && (forall g <- m.key :: CompactGlyph(g)) && Compact(m.tree)
    ensures MembersMeaning(members) != [] && MembersText(members) == CanonFields(MembersMeaning(members)) + "}"
    decreases members, 0
  {
    var m, fs := members[0], MembersMeaning(members);
    assert m in members;
    CompactIsCanon(m.tree);
    QuotedIsQuote(m.key);
    CanonOfFields(fs);
    assert fs[0] == Field(GlyphsString(m.key), Meaning(m.tree)) && fs[1..] == MembersMeaning(members[1..]);
    if |members| == 1 {
      assert members[1..] == [] && |fs| == 1;
      TightText(m, ['}']);
    } else {
      MembersAreCanon(members[1..]);
      assert |fs| > 1;
      TightText(m, [','] + MembersText(members[1..]));
      Close(Quote(fs[0].key) + ":" + Canon(fs[0].value), CanonFields(fs[1..]), "}");
    }
  }

  // ---- every value has a compact tree --------------------------------------------------------

  lemma {:induction false} HexDigitBack(d: nat)
    requires d < 16
    ensures var c := HexDigit(d); IsHexDigit(c) && (IsDigit(c) || 'a' <= c <= 'f') && DigitOf(c) == d
  {
  }

  lemma {:induction false} Hex4Back(n: nat)
    requires n < 0x10000
    ensures FourHex(Hex4(n)) && LowerHex(Hex4(n)) && Value(Hex4(n)) == n
  {
    HexDigitBack(n / 16 / 16 / 16);
    HexDigitBack(n / 16 / 16 % 16);
    HexDigitBack(n / 16 % 16);
    HexDigitBack(n % 16);
  }

  // The letter of a control character that has one.
  lemma {:induction false} LetterFor(n: nat) returns (letter: char)
    requires n < 32 && !SpelledOut(n)
    ensures ValidGlyph(Short(letter)) && letter != '/' && GlyphChar(Short(letter)) as int == n
  {
    letter := if n == 8 then 'b' else if n == 9 then 't' else if n == 10 then 'n' else if n == 12 then 'f' else 'r';
  }

  lemma {:induction false} SpelledFor(c: char) returns (g: Glyph)
    requires SpelledOut(c as int)
    ensures ValidGlyph(g) && CompactGlyph(g) && GlyphChar(g) == c
  {
    var n := c as int;
    if n < 0x10000 {
      Hex4Back(n);
      g := Code(Hex4(n));
    } else {
      HalvesBack(n);
      Hex4Back(High(n));
      Hex4Back(Low(n));
      g := Pair(Hex4(High(n)), Hex4(Low(n)));
    }
  }

  lemma {:induction false} HalvesBack(n: nat)
    requires 0x10000 <= n < 0x110000
    ensures 0xD800 <= High(n) < 0xDC00 <= Low(n) < 0xE000
    ensures 0x10000 + (High(n) - 0xD800) * 0x400 + (Low(n) - 0xDC00) == n
  {
  }

  lemma {:induction false} GlyphFor(c: char) returns (g: Glyph)
    ensures ValidGlyph(g) && CompactGlyph(g) && GlyphChar(g) == c
  {
    if c == '"' || c == '\\' {
      g := Short(c);
    } else if ' ' <= c <= '~' {
      g := Plain(c);
    } else if SpelledOut(c as int) {
      g := SpelledFor(c);
    } else {
      var letter := LetterFor(c as int);
      g := Short(letter);
    }
  }

  lemma {:induction false} GlyphsFor(s: string) returns (gs: seq<Glyph>)
    ensures ValidGlyphs(gs) && (forall g <- gs :: CompactGlyph(g)) && GlyphsString(gs) == s
  {
    if s == "" {
      gs := [];
    } else {
      var g := GlyphFor(s[0]);
      var rest := GlyphsFor(s[1..]);
      gs := [g] + rest;
      assert gs[1..] == rest && s == [s[0]] + s[1..];
    }
  }

  lemma {:induction false} DecimalIsNumber(n: int)
    ensures ValidNumber(Decimal(n)) && Decimal(n) != "-0" && ReadDecimal(Decimal(n)) == n
  {
    DecimalReads(n);
    var m := if n < 0 then -n else n;
    DecimalNatReads(m);
    var d := DecimalNat(m);
    assert d[0] in d;
    if n < 0 {
      assert ("-" + d)[1..] == d;
      assert "0"[..0] == "" && ReadNat("0") == 0;
    }
    if d[0] == '0' {
      assert d == "0";
    }
  }

  lemma {:induction false} TreeFor(v: Json) returns (t: Tree)
    requires WellFormed(v)
    ensures ValidTree(t) && Compact(t) && Meaning(t) == v
    decreases v
  {
    match v
    case Null => t := Word("null");
    case Bool(b) => t := Word(if b then "true" else "false");
    case Int(n) =>
      DecimalIsNumber(n);
      t := Number(Decimal(n));
    case Str(s) =>
      var gs := GlyphsFor(s);
      t := Quoted(gs);
    case Arr(vs) =>
      var items := ItemsFor(vs);
      t := List("", items);
    case Obj(fields) =>
      var members := MembersFor(fields);
      DictOfSorted(fields);
      t := Table("", members);
  }

  lemma {:induction false} ItemsFor(vs: seq<Json>) returns (items: seq<Item>)
    requires forall v <- vs :: WellFormed(v)
    ensures forall i <- items :: ValidTree(i.tree) && i.before == "" && i.after == "" && Compact(i.tree)
    ensures ItemsMeaning(items) == vs
    decreases vs
  {
    if vs == [] {
      items := [];
    } else {
      var t := TreeFor(vs[0]);
      var rest := ItemsFor(vs[1..]);
      items := [Item("", t, "")] + rest;
      assert items[1..] == rest && vs == [vs[0]] + vs[1..];
    }
  }

  lemma {:induction false} MembersFor(fields: seq<Field>) returns (members: seq<Member>)
    requires forall f <- fields :: WellFormed(f.value)
    ensures forall m <- members :: ValidGlyphs(m.key) && ValidTree(m.tree)
              && Tight(m) && (forall g <- m.key :: CompactGlyph(g)) && Compact(m.tree)
    ensures MembersMeaning(members) == fields
    decreases fields
  {
    if fields == [] {
      members := [];
    } else {
      var key := GlyphsFor(fields[0].key);
      var t := TreeFor(fields[0].value);
      var rest := MembersFor(fields[1..]);
      members := [Member("", key, "", "", t, "")] + rest;
      assert members[1..] == rest && fields == [fields[0]] + fields[1..];
    }
  }

  // Of all the texts of a value the canonical one is the compact one.
  lemma {:induction false} CanonExactly(v: Json)
    requires WellFormed(v)
    ensures exists t: Tree :: ValidTree(t) && Compact(t) && Meaning(t) == v && TreeText(t) == Canon(v)
    ensures forall t: Tree | ValidTree(t) && Compact(t) && Meaning(t) == v :: TreeText(t) == Canon(v)
  {
    var t := TreeFor(v);
    CompactIsCanon(t);
    forall u: Tree | ValidTree(u) && Compact(u) && Meaning(u) == v
      ensures TreeText(u) == Canon(v)
    {
      CompactIsCanon(u);
    }
  }
}
