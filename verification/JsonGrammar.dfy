/** The grammar of JSON texts, as trees that keep every choice of blanks and escapes (sections 2 to 7 of
    RFC 8259, for integers), and the parser as exactly its reader. */
module JsonGrammar {
  import opened Prelude
  import opened Json
  import opened Text

  // ---- trees ---------------------------------------------------------------------------------

  // One character of a string, as it is written.
  datatype Glyph = Plain(c: char) | Short(letter: char) | Code(digits: string) | Pair(high: string, low: string)

  datatype Tree =
    | Word(word: string)
    | Number(text: string)
    | Quoted(glyphs: seq<Glyph>)
    | List(gap: string, items: seq<Item>)
    | Table(gap: string, members: seq<Member>)

  // What stands between two separators, with the blanks around it.
  datatype Item = Item(before: string, tree: Tree, after: string)

  datatype Member = Member(before: string, key: seq<Glyph>, beforeColon: string, afterColon: string, tree: Tree,
                           after: string)

  // ---- which trees there are -----------------------------------------------------------------

  predicate Blank(s: string) {
    forall c <- s :: c == ' ' || c == '\t' || c == '\n' || c == '\r'
  }

  predicate IsHexDigit(c: char) {
    '0' <= c <= '9' || 'a' <= c <= 'f' || 'A' <= c <= 'F'
  }

  predicate FourHex(s: string) {
    |s| == 4 && IsHexDigit(s[0]) && IsHexDigit(s[1]) && IsHexDigit(s[2]) && IsHexDigit(s[3])
  }

  function DigitOf(c: char): nat {
    if '0' <= c <= '9' then c as int - '0' as int
    else if 'a' <= c <= 'f' then c as int - 'a' as int + 10
    else if 'A' <= c <= 'F' then c as int - 'A' as int + 10
    else 0
  }

  function Value(s: string): nat
    requires |s| == 4
  {
    DigitOf(s[0]) * 0x1000 + DigitOf(s[1]) * 0x100 + DigitOf(s[2]) * 0x10 + DigitOf(s[3])
  }

  predicate ValidGlyph(g: Glyph) {
    match g
    case Plain(c) => ' ' <= c && c != '"' && c != '\\'
    case Short(letter) => letter == '"' || letter == '\\' || letter == '/' || ShortControl(letter).Some?
    case Code(d) => FourHex(d) && !(0xD800 <= Value(d) < 0xE000)
    case Pair(h, l) => FourHex(h) && FourHex(l) && 0xD800 <= Value(h) < 0xDC00 <= Value(l) < 0xE000
  }

  // The control characters that have a letter.
  function ShortControl(letter: char): Option<char> {
    if letter == 'b' then Some(8 as char)
    else if letter == 'f' then Some(12 as char)
    else if letter == 'n' then Some(10 as char)
    else if letter == 'r' then Some(13 as char)
    else if letter == 't' then Some(9 as char)
    else None
  }

  predicate ValidGlyphs(gs: seq<Glyph>) {
    forall g <- gs :: ValidGlyph(g)
  }

  // -?(0|[1-9][0-9]*)
  predicate ValidNumber(s: string) {
    var digits := if s != "" && s[0] == '-' then s[1..] else s;
    digits == "0" || (digits != "" && digits[0] != '0' && forall c <- digits :: '0' <= c <= '9')
  }

  predicate ValidTree(t: Tree)
    decreases t
  {
    match t
    case Word(w) => w == "null" || w == "true" || w == "false"
    case Number(s) => ValidNumber(s)
    case Quoted(gs) => ValidGlyphs(gs)
    case List(gap, items) => Blank(gap) && forall i <- items :: Blank(i.before) && Blank(i.after) && ValidTree(i.tree)
    case Table(gap, members) =>
      Blank(gap) && forall m <- members :: Spaced(m) && ValidGlyphs(m.key) && ValidTree(m.tree)
  }

  predicate Spaced(m: Member) {
    Blank(m.before) && Blank(m.beforeColon) && Blank(m.afterColon) && Blank(m.after)
  }

  // ---- what they are written as --------------------------------------------------------------

  // Behind the backslash.
  function Behind(g: Glyph): string {
    match g
    case Plain(c) => [c]
    case Short(letter) => [letter]
    case Code(d) => ['u'] + d
    case Pair(h, l) => ['u'] + (h + (['\\'] + (['u'] + l)))
  }

  function GlyphText(g: Glyph): string {
    if g.Plain? then Behind(g) else ['\\'] + Behind(g)
  }

  function GlyphsText(gs: seq<Glyph>): string {
    if gs == [] then "" else GlyphText(gs[0]) + GlyphsText(gs[1..])
  }

  function TreeText(t: Tree): string
    decreases t
  {
    match t
    case Word(w) => w
    case Number(s) => s
    case Quoted(gs) => ['"'] + (GlyphsText(gs) + ['"'])
    case List(gap, items) => ['['] + (if items == [] then gap + [']'] else ItemsText(items))
    case Table(gap, members) => ['{'] + (if members == [] then gap + ['}'] else MembersText(members))
  }

  // With the closing bracket.
  function ItemsText(items: seq<Item>): string
    requires items != []
    decreases items
  {
    var tail := if |items| == 1 then [']'] else [','] + ItemsText(items[1..]);
    items[0].before + ItemText(items[0], tail)
  }

  // From the value on, given what follows the item.
  function ItemText(i: Item, tail: string): string
    decreases i
  {
    TreeText(i.tree) + (i.after + tail)
  }

  function MembersText(members: seq<Member>): string
    requires members != []
    decreases members
  {
    var tail := if |members| == 1 then ['}'] else [','] + MembersText(members[1..]);
    members[0].before + MemberText(members[0], tail)
  }

  // From the key on, given what follows the member; and from behind the key on.
  function MemberText(m: Member, tail: string): string
    decreases m, 1
  {
    ['"'] + (GlyphsText(m.key) + (['"'] + ValueText(m, tail)))
  }

  function ValueText(m: Member, tail: string): string
    decreases m, 0
  {
    m.beforeColon + ([':'] + (m.afterColon + (TreeText(m.tree) + (m.after + tail))))
  }

  // ---- what they mean ------------------------------------------------------------------------

  function GlyphChar(g: Glyph): char
    requires ValidGlyph(g)
  {
    match g
    case Plain(c) => c
    case Short(letter) => ShortControl(letter).GetOr(letter)
    case Code(d) => CodeChar(d)
    case Pair(h, l) => PairChar(h, l)
  }

  function CodeChar(d: string): char
    requires FourHex(d) && !(0xD800 <= Value(d) < 0xE000)
  {
    Value(d) as char
  }

  function PairChar(h: string, l: string): char
    requires FourHex(h) && FourHex(l) && 0xD800 <= Value(h) < 0xDC00 <= Value(l) < 0xE000
  {
    (0x10000 + (Value(h) - 0xD800) * 0x400 + (Value(l) - 0xDC00)) as char
  }

  function GlyphsString(gs: seq<Glyph>): string
    requires ValidGlyphs(gs)
  {
    if gs == [] then "" else [GlyphChar(gs[0])] + GlyphsString(gs[1..])
  }

  function Meaning(t: Tree): Json
    requires ValidTree(t)
    decreases t
  {
    match t
    case Word(w) => if w == "null" then Null else Bool(w == "true")
    case Number(s) => Int(ReadDecimal(s))
    case Quoted(gs) => Str(GlyphsString(gs))
    case List(_, items) => Arr(ItemsMeaning(items))
    case Table(_, members) => Obj(Dict(MembersMeaning(members)))
  }

  function ItemsMeaning(items: seq<Item>): seq<Json>
    requires forall i <- items :: ValidTree(i.tree)
    decreases items
  {
    if items == [] then [] else [Meaning(items[0].tree)] + ItemsMeaning(items[1..])
  }

  function MembersMeaning(members: seq<Member>): seq<Field>
    requires forall m <- members :: ValidGlyphs(m.key) && ValidTree(m.tree)
    decreases members
  {
    if members == [] then []
    else [Field(GlyphsString(members[0].key), Meaning(members[0].tree))] + MembersMeaning(members[1..])
  }

  // ---- every tree is read --------------------------------------------------------------------

  lemma {:induction false} Cons(c: char, s: string)
    ensures var t := [c] + s; t != "" && t[0] == c && t[1..] == s
  {
  }

  lemma {:induction false} Regroup(a: string, b: string, c: string)
    ensures a + b + c == a + (b + c)
  {
  }

  lemma {:induction false} SkipBlank(b: string, rest: string)
    requires Blank(b)
    ensures SkipSpace(b + rest) == SkipSpace(rest)
  {
    if b == "" {
      assert b + rest == rest;
    } else {
      assert (b + rest)[1..] == b[1..] + rest && (b + rest)[0] == b[0] && b[0] in b;
      assert forall c <- b[1..] :: c in b;
      SkipBlank(b[1..], rest);
    }
  }

  // A separator behind blanks.
  lemma {:induction false} SkipTo(b: string, c: char, rest: string)
    requires Blank(b) && !IsSpace(c)
    ensures SkipSpace(b + ([c] + rest)) == [c] + rest
  {
    SkipBlank(b, [c] + rest);
    Cons(c, rest);
  }

  lemma {:induction false} FourExactly(d: string, rest: string)
    requires |d| == 4
    ensures FourHex(d) <==> ReadHex4(d + rest).Some?
    ensures FourHex(d) ==> ReadHex4(d + rest) == Some(Value(d))
  {
    var s := d + rest;
    assert s[0] == d[0] && s[1] == d[1] && s[2] == d[2] && s[3] == d[3];
  }

  lemma {:induction false} CodeIsRead(d: string, rest: string)
    requires FourHex(d) && !(0xD800 <= Value(d) < 0xE000)
    ensures ReadCodePoint(d + rest) == Ok(CodeChar(d), rest)
  {
    FourExactly(d, rest);
    assert (d + rest)[4..] == rest;
  }

  lemma {:induction false} PairIsRead(h: string, l: string, rest: string)
    requires FourHex(h) && FourHex(l) && 0xD800 <= Value(h) < 0xDC00 <= Value(l) < 0xE000
    ensures ReadCodePoint(h + (['\\'] + (['u'] + (l + rest)))) == Ok(PairChar(h, l), rest)
  {
    var s := h + (['\\'] + (['u'] + (l + rest)));
    FourExactly(h, ['\\'] + (['u'] + (l + rest)));
    FourExactly(l, rest);
    assert s[4] == '\\' && s[5] == 'u' && s[6..] == l + rest && s[10..] == rest;
  }

  lemma {:induction false} EscapeIsRead(g: Glyph, rest: string)
    requires ValidGlyph(g) && !g.Plain?
    ensures ReadEscape(Behind(g) + rest) == Ok(GlyphChar(g), rest)
  {
    match g
    case Short(letter) =>
      ShortIsRead(letter, rest);
    case Code(d) =>
      Regroup(['u'], d, rest);
      CodeIsRead(d, rest);
      UnicodeIsRead(d + rest);
    case Pair(h, l) =>
      var s := h + (['\\'] + (['u'] + (l + rest)));
      assert Behind(g) + rest == ['u'] + s;
      PairIsRead(h, l, rest);
      UnicodeIsRead(s);
  }

  lemma {:induction false} UnicodeIsRead(s: string)
    ensures ReadEscape(['u'] + s) == ReadCodePoint(s)
  {
    Cons('u', s);
  }

  lemma {:induction false} ShortIsRead(letter: char, rest: string)
    requires ValidGlyph(Short(letter))
    ensures ReadEscape([letter] + rest) == Ok(GlyphChar(Short(letter)), rest)
  {
    Cons(letter, rest);
  }

  lemma {:induction false} GlyphIsRead(g: Glyph, more: string)
    requires ValidGlyph(g) && ReadString(more).Ok?
    ensures ReadString(GlyphText(g) + more)
            == Ok([GlyphChar(g)] + ReadString(more).value, ReadString(more).rest)
  {
    if g.Plain? {
      Cons(g.c, more);
    } else {
      EscapeIsRead(g, more);
      Regroup(['\\'], Behind(g), more);
      Cons('\\', Behind(g) + more);
      EscapedString(GlyphText(g) + more, more, GlyphChar(g));
    }
  }

  lemma {:induction false} EscapedString(s: string, more: string, c: char)
    requires s != "" && s[0] == '\\' && ReadEscape(s[1..]) == Ok(c, more) && ReadString(more).Ok?
    ensures ReadString(s) == Ok([c] + ReadString(more).value, ReadString(more).rest)
  {
  }

  lemma {:induction false} GlyphsAreRead(gs: seq<Glyph>, rest: string)
    requires ValidGlyphs(gs)
    ensures ReadString(GlyphsText(gs) + (['"'] + rest)) == Ok(GlyphsString(gs), rest)
  {
    var end := ['"'] + rest;
    Cons('"', rest);
    if gs == [] {
      assert "" + end == end;
    } else {
      GlyphsAreRead(gs[1..], rest);
      assert gs[0] in gs;
      GlyphIsRead(gs[0], GlyphsText(gs[1..]) + end);
      Regroup(GlyphText(gs[0]), GlyphsText(gs[1..]), end);
    }
  }

  lemma {:induction false} NumberDigits(s: string)
    requires ValidNumber(s)
    ensures var digits := if s[0] == '-' then s[1..] else s;
            digits != "" && (forall c <- digits :: IsDigit(c)) && (digits[0] == '0' ==> digits == "0")
  {
  }

  // A tree begins with a character that is no blank and closes nothing.
  lemma {:induction false} FirstOf(t: Tree)
    requires ValidTree(t)
    ensures var s := TreeText(t); s != "" && !IsSpace(s[0]) && s[0] != ']' && s[0] != '}'
  {
    match t
    case Word(w) =>
      assert w[0] == 'n' || w[0] == 't' || w[0] == 'f';
    case Number(s) =>
      NumberDigits(s);
      assert s[0] == '-' || IsDigit(s[0]);
    case Quoted(gs) =>
      assert TreeText(t)[0] == '"';
    case List(_, _) =>
      assert TreeText(t)[0] == '[';
    case Table(_, _) =>
      assert TreeText(t)[0] == '{';
  }

  lemma {:induction false} BeginsSolid(t: Tree, rest: string)
    requires ValidTree(t)
    ensures var s := TreeText(t) + rest; s != "" && s[0] != ']' && s[0] != '}' && SkipSpace(s) == s
  {
    FirstOf(t);
    assert (TreeText(t) + rest)[0] == TreeText(t)[0];
  }

  // What may follow a number: no further digit.
  predicate Ends(t: Tree, rest: string) {
    t.Number? ==> rest == "" || !IsDigit(rest[0])
  }

  // A tree is followed by blanks and a separator, none of which is a digit.
  lemma {:induction false} EndsThere(t: Tree, b: string, c: char, rest: string)
    requires Blank(b) && !IsDigit(c)
    ensures Ends(t, b + ([c] + rest))
  {
    if b != "" {
      assert b[0] in b && (b + ([c] + rest))[0] == b[0];
    }
  }

  lemma {:induction false} DigitsEnd(d: string, rest: string)
    requires (forall c <- d :: IsDigit(c)) && (rest == "" || !IsDigit(rest[0]))
    ensures Digits(d + rest) == |d|
  {
    if d == "" {
      assert d + rest == rest;
    } else {
      assert d[0] in d && (d + rest)[1..] == d[1..] + rest;
      DigitsEnd(d[1..], rest);
    }
  }

  lemma {:induction false} IntIsRead(s: string, rest: string)
    requires ValidNumber(s) && (rest == "" || !IsDigit(rest[0]))
    ensures ReadInt(s + rest) == Ok(ReadDecimal(s), rest)
  {
    NumberDigits(s);
    var sign := if s[0] == '-' then 1 else 0;
    var d := s[sign..];
    var all := s + rest;
    assert all[sign..] == d + rest && all[0] == s[0] && all[sign] == d[0];
    DigitsEnd(d, rest);
    assert all[..|s|] == s && all[|s|..] == rest;
  }

  lemma {:induction false} NumberIsRead(s: string, rest: string)
    requires ValidNumber(s) && (rest == "" || !IsDigit(rest[0]))
    ensures ReadValue(s + rest) == Ok(Int(ReadDecimal(s)), rest)
  {
    IntIsRead(s, rest);
    FirstOf(Number(s));
    var all := s + rest;
    assert all[0] == s[0] && (s[0] == '-' || IsDigit(s[0])) by {
      NumberDigits(s);
    }
    NotWord(all, "null");
    NotWord(all, "true");
    NotWord(all, "false");
  }

  lemma {:induction false} NotWord(s: string, word: string)
    requires s != "" && word != "" && s[0] != word[0]
    ensures !StartsWith(s, word)
  {
  }

  lemma {:induction false} WordIsRead(w: string, rest: string)
    requires w == "null" || w == "true" || w == "false"
    ensures ReadValue(w + rest) == Ok(Meaning(Word(w)), rest)
  {
    var s := w + rest;
    assert s[..|w|] == w && s[|w|..] == rest && s[0] == w[0];
    if w != "null" {
      NotWord(s, "null");
    }
    if w == "false" {
      NotWord(s, "true");
    }
  }

  lemma {:induction false} QuotedIsRead(gs: seq<Glyph>, rest: string)
    requires ValidGlyphs(gs)
    ensures ReadValue(TreeText(Quoted(gs)) + rest) == Ok(Str(GlyphsString(gs)), rest)
  {
    GlyphsAreRead(gs, rest);
    var end := GlyphsText(gs) + (['"'] + rest);
    assert TreeText(Quoted(gs)) + rest == ['"'] + end;
    Cons('"', end);
  }

  lemma {:induction false} TreeIsRead(t: Tree, rest: string)
    requires ValidTree(t) && Ends(t, rest)
    ensures ReadValue(TreeText(t) + rest) == Ok(Meaning(t), rest)
    decreases t, 1
  {
    match t
    case Word(w) => WordIsRead(w, rest);
    case Number(s) => NumberIsRead(s, rest);
    case Quoted(gs) => QuotedIsRead(gs, rest);
    case List(gap, items) => ListIsRead(gap, items, rest);
    case Table(gap, members) => TableIsRead(gap, members, rest);
  }

  // A bracket, and what is read behind it.
  lemma {:induction false} ArrayOpens(s: string, t: string, rest: string)
    requires s == ['['] + t
    ensures SkipSpace(t) == [']'] + rest ==> ReadValue(s) == Ok(Arr([]), rest)
    ensures var u := SkipSpace(t);
            u != "" && u[0] != ']' && ReadItems(u).Ok? ==>
              ReadValue(s) == Ok(Arr(ReadItems(u).value), ReadItems(u).rest)
  {
    Cons('[', t);
    Cons(']', rest);
  }

  lemma {:induction false} ObjectOpens(s: string, t: string, rest: string)
    requires s == ['{'] + t
    ensures SkipSpace(t) == ['}'] + rest ==> ReadValue(s) == Ok(Obj([]), rest)
    ensures var u := SkipSpace(t);
            u != "" && u[0] != '}' && ReadFields(u).Ok? ==>
              ReadValue(s) == Ok(Obj(Dict(ReadFields(u).value)), ReadFields(u).rest)
  {
    Cons('{', t);
    Cons('}', rest);
  }

  lemma {:induction false} ListIsRead(gap: string, items: seq<Item>, rest: string)
    requires ValidTree(List(gap, items))
    ensures ReadValue(TreeText(List(gap, items)) + rest) == Ok(Arr(ItemsMeaning(items)), rest)
    decreases items, 3
  {
    var s := TreeText(List(gap, items)) + rest;
    if items == [] {
      assert s == ['['] + (gap + ([']'] + rest));
      SkipTo(gap, ']', rest);
      ArrayOpens(s, gap + ([']'] + rest), rest);
    } else {
      Regroup(['['], ItemsText(items), rest);
      ItemsAreRead(items, rest);
      ArrayOpens(s, ItemsText(items) + rest, rest);
    }
  }

  lemma {:induction false} TableIsRead(gap: string, members: seq<Member>, rest: string)
    requires ValidTree(Table(gap, members))
    ensures ReadValue(TreeText(Table(gap, members)) + rest) == Ok(Obj(Dict(MembersMeaning(members))), rest)
    decreases members, 3
  {
    var s := TreeText(Table(gap, members)) + rest;
    if members == [] {
      assert s == ['{'] + (gap + (['}'] + rest));
      SkipTo(gap, '}', rest);
      ObjectOpens(s, gap + (['}'] + rest), rest);
    } else {
      Regroup(['{'], MembersText(members), rest);
      MembersAreRead(members, rest);
      ObjectOpens(s, MembersText(members) + rest, rest);
    }
  }

  // The first item, up to its separator.
  lemma {:induction false} ItemIsRead(i: Item, c: char, more: string)
    requires Blank(i.before) && Blank(i.after) && ValidTree(i.tree) && (c == ',' || c == ']')
    ensures var s := ItemText(i, [c] + more);
            && SkipSpace(i.before + s) == s && s != "" && s[0] != ']'
            && ReadValue(s) == Ok(Meaning(i.tree), i.after + ([c] + more))
            && SkipSpace(i.after + ([c] + more)) == [c] + more
    decreases i
  {
    SkipBlank(i.before, ItemText(i, [c] + more));
    BeginsSolid(i.tree, i.after + ([c] + more));
    EndsThere(i.tree, i.after, c, more);
    TreeIsRead(i.tree, i.after + ([c] + more));
    SkipTo(i.after, c, more);
  }

  lemma {:induction false} ItemsStep(s: string, v: Json, t: string, c: char, more: string)
    requires ReadValue(s) == Ok(v, t) && SkipSpace(t) == [c] + more
    ensures c == ']' ==> ReadItems(s) == Ok([v], more)
    ensures c == ',' && ReadItems(SkipSpace(more)).Ok? ==>
              var r := ReadItems(SkipSpace(more)); ReadItems(s) == Ok([v] + r.value, r.rest)
  {
    Cons(c, more);
  }

  // What follows an item moves behind it.
  lemma {:induction false} ItemTail(i: Item, c: char, more: string, rest: string)
    ensures i.before + ItemText(i, [c] + more) + rest == i.before + ItemText(i, [c] + (more + rest))
  {
    var u, v, w := TreeText(i.tree), i.after, [c] + more;
    assert i.before + (u + (v + w)) + rest == i.before + (u + (v + ([c] + (more + rest))));
  }

  lemma {:induction false} ItemsAreRead(items: seq<Item>, rest: string)
    requires items != [] && forall i <- items :: Blank(i.before) && Blank(i.after) && ValidTree(i.tree)
    ensures var s := SkipSpace(ItemsText(items) + rest);
            s != "" && s[0] != ']' && ReadItems(s) == Ok(ItemsMeaning(items), rest)
    decreases items, 2
  {
    var i := items[0];
    assert i in items;
    if |items| == 1 {
      ItemTail(i, ']', "", rest);
      assert [']'] + "" == [']'] && "" + rest == rest;
      ItemIsRead(i, ']', rest);
      ItemsStep(ItemText(i, [']'] + rest), Meaning(i.tree), i.after + ([']'] + rest), ']', rest);
      assert items[1..] == [] && [Meaning(i.tree)] + [] == [Meaning(i.tree)];
    } else {
      var more := ItemsText(items[1..]) + rest;
      ItemsAreRead(items[1..], rest);
      ItemTail(i, ',', ItemsText(items[1..]), rest);
      ItemIsRead(i, ',', more);
      ItemsStep(ItemText(i, [','] + more), Meaning(i.tree), i.after + ([','] + more), ',', more);
    }
  }

  // The first member, up to its separator.
  lemma {:induction false} ValueIsRead(m: Member, c: char, more: string)
    requires Spaced(m) && ValidTree(m.tree) && (c == ',' || c == '}')
    ensures var value := TreeText(m.tree) + (m.after + ([c] + more));
            && SkipSpace(ValueText(m, [c] + more)) == [':'] + (m.afterColon + value)
            && SkipSpace(m.afterColon + value) == value
            && ReadValue(value) == Ok(Meaning(m.tree), m.after + ([c] + more))
            && SkipSpace(m.after + ([c] + more)) == [c] + more
    decreases m, 0
  {
    var value := TreeText(m.tree) + (m.after + ([c] + more));
    SkipTo(m.beforeColon, ':', m.afterColon + value);
    SkipBlank(m.afterColon, value);
    BeginsSolid(m.tree, m.after + ([c] + more));
    EndsThere(m.tree, m.after, c, more);
    TreeIsRead(m.tree, m.after + ([c] + more));
    SkipTo(m.after, c, more);
  }

  lemma {:induction false} KeyIsRead(m: Member, tail: string)
    requires Blank(m.before) && ValidGlyphs(m.key)
    ensures var s := MemberText(m, tail);
            && s != "" && s[0] == '"' && SkipSpace(m.before + s) == s
            && ReadString(s[1..]) == Ok(GlyphsString(m.key), ValueText(m, tail))
  {
    var t := GlyphsText(m.key) + (['"'] + ValueText(m, tail));
    Cons('"', t);
    GlyphsAreRead(m.key, ValueText(m, tail));
    SkipTo(m.before, '"', t);
  }

  lemma {:induction false} FieldsStep(s: string, key: string, t: string, colon: string, value: string, v: Json,
                                      u: string, c: char, more: string)
    requires s != "" && s[0] == '"' && ReadString(s[1..]) == Ok(key, t) && SkipSpace(t) == [':'] + colon
    requires SkipSpace(colon) == value && ReadValue(value) == Ok(v, u) && SkipSpace(u) == [c] + more
    ensures c == '}' ==> ReadFields(s) == Ok([Field(key, v)], more)
    ensures c == ',' && ReadFields(SkipSpace(more)).Ok? ==>
              var r := ReadFields(SkipSpace(more)); ReadFields(s) == Ok([Field(key, v)] + r.value, r.rest)
  {
    Cons(':', colon);
    Cons(c, more);
  }

  lemma {:induction false} MemberIsRead(m: Member, c: char, more: string)
    requires Spaced(m) && ValidGlyphs(m.key) && ValidTree(m.tree) && (c == ',' || c == '}')
    ensures var s, f := MemberText(m, [c] + more), Field(GlyphsString(m.key), Meaning(m.tree));
            && s != "" && s[0] == '"' && SkipSpace(m.before + s) == s
            && (c == '}' ==> ReadFields(s) == Ok([f], more))
            && (c == ',' && ReadFields(SkipSpace(more)).Ok? ==>
                  var r := ReadFields(SkipSpace(more)); ReadFields(s) == Ok([f] + r.value, r.rest))
    decreases m, 1
  {
    KeyIsRead(m, [c] + more);
    ValueIsRead(m, c, more);
    var value := TreeText(m.tree) + (m.after + ([c] + more));
    FieldsStep(MemberText(m, [c] + more), GlyphsString(m.key), ValueText(m, [c] + more), m.afterColon + value, value,
               Meaning(m.tree), m.after + ([c] + more), c, more);
  }

  lemma {:induction false} MemberTail(m: Member, c: char, more: string, rest: string)
    ensures m.before + MemberText(m, [c] + more) + rest == m.before + MemberText(m, [c] + (more + rest))
  {
    ValueTail(m, c, more, rest);
    var k, u, v := GlyphsText(m.key), ValueText(m, [c] + more), ValueText(m, [c] + (more + rest));
    assert m.before + (['"'] + (k + (['"'] + u))) + rest == m.before + (['"'] + (k + (['"'] + (u + rest))));
  }

  lemma {:induction false} ValueTail(m: Member, c: char, more: string, rest: string)
    ensures ValueText(m, [c] + more) + rest == ValueText(m, [c] + (more + rest))
  {
    var t, w := TreeText(m.tree), [c] + more;
    assert m.beforeColon + ([':'] + (m.afterColon + (t + (m.after + w)))) + rest
           == m.beforeColon + ([':'] + (m.afterColon + (t + (m.after + ([c] + (more + rest))))));
  }

  lemma {:induction false} MembersAreRead(members: seq<Member>, rest: string)
    requires members != [] && forall m <- members :: Spaced(m) && ValidGlyphs(m.key) && ValidTree(m.tree)
    ensures var s := SkipSpace(MembersText(members) + rest);
            s != "" && s[0] != '}' && ReadFields(s) == Ok(MembersMeaning(members), rest)
    decreases members, 2
  {
    var m := members[0];
    assert m in members;
    if |members| == 1 {
      MemberTail(m, '}', "", rest);
      assert ['}'] + "" == ['}'] && "" + rest == rest;
      MemberIsRead(m, '}', rest);
      var f := Field(GlyphsString(m.key), Meaning(m.tree));
      assert members[1..] == [] && [f] + [] == [f];
    } else {
      MembersAreRead(members[1..], rest);
      MemberTail(m, ',', MembersText(members[1..]), rest);
      MemberIsRead(m, ',', MembersText(members[1..]) + rest);
    }
  }

  // ---- all that is read is a tree ------------------------------------------------------------

  lemma {:induction false} BlankBefore(s: string) returns (b: string)
    ensures Blank(b) && s == b + SkipSpace(s)
  {
    if s != "" && IsSpace(s[0]) {
      b := BlankBefore(s[1..]);
      b := [s[0]] + b;
      assert s == [s[0]] + s[1..];
    } else {
      b := "";
    }
  }

  lemma {:induction false} FourRead(s: string)
    requires ReadHex4(s).Some?
    ensures FourHex(s[..4]) && Value(s[..4]) == ReadHex4(s).value && s == s[..4] + s[4..]
  {
    assert s == s[..4] + s[4..];
    FourExactly(s[..4], s[4..]);
  }

  lemma {:induction false} CodePointOf(s: string) returns (g: Glyph)
    requires ReadCodePoint(s).Ok?
    ensures (g.Code? || g.Pair?) && ValidGlyph(g) && GlyphChar(g) == ReadCodePoint(s).value
    ensures ['u'] + s == Behind(g) + ReadCodePoint(s).rest
  {
    FourRead(s);
    var d := s[..4];
    if 0xD800 <= Value(d) < 0xE000 {
      FourRead(s[6..]);
      var l := s[6..][..4];
      g := Pair(d, l);
      assert s[6..][4..] == s[10..];
      assert s == d + (['\\'] + (['u'] + (l + s[10..])));
    } else {
      g := Code(d);
      Regroup(['u'], d, s[4..]);
    }
  }

  lemma {:induction false} EscapeOf(s: string) returns (g: Glyph)
    requires ReadEscape(s).Ok?
    ensures !g.Plain? && ValidGlyph(g) && GlyphChar(g) == ReadEscape(s).value
    ensures s == Behind(g) + ReadEscape(s).rest
  {
    assert s == [s[0]] + s[1..];
    if s[0] == 'u' {
      g := CodePointOf(s[1..]);
    } else {
      g := Short(s[0]);
    }
  }

  lemma {:induction false} GlyphOf(s: string) returns (g: Glyph, more: string)
    requires ReadString(s).Ok? && s[0] != '"'
    ensures ValidGlyph(g) && s == GlyphText(g) + more && |more| < |s|
    ensures ReadString(more).Ok?
    ensures ReadString(s) == Ok([GlyphChar(g)] + ReadString(more).value, ReadString(more).rest)
  {
    assert s == [s[0]] + s[1..];
    if s[0] == '\\' {
      g := EscapeOf(s[1..]);
      more := ReadEscape(s[1..]).rest;
      Regroup(['\\'], Behind(g), more);
    } else {
      g, more := Plain(s[0]), s[1..];
    }
  }

  lemma {:induction false} GlyphsOf(s: string) returns (gs: seq<Glyph>)
    requires ReadString(s).Ok?
    ensures ValidGlyphs(gs) && GlyphsString(gs) == ReadString(s).value
    ensures s == GlyphsText(gs) + (['"'] + ReadString(s).rest)
    decreases |s|
  {
    if s[0] == '"' {
      gs := [];
      assert s == "" + (['"'] + s[1..]);
    } else {
      var g, more := GlyphOf(s);
      var rest := GlyphsOf(more);
      gs := [g] + rest;
      assert gs[0] == g && gs[1..] == rest;
      Regroup(GlyphText(g), GlyphsText(rest), ['"'] + ReadString(s).rest);
    }
  }

  lemma {:induction false} DigitsAre(s: string)
    ensures forall c <- s[..Digits(s)] :: IsDigit(c)
    ensures Digits(s) < |s| ==> !IsDigit(s[Digits(s)])
  {
    if s != "" && IsDigit(s[0]) {
      DigitsAre(s[1..]);
      var k := Digits(s[1..]);
      assert s[..k + 1] == [s[0]] + s[1..][..k];
    }
  }

  // The text of a number: a sign or none, and its digits, only one if that is a zero.
  lemma {:induction false} SignedNumber(s: string, sign: nat, k: nat)
    requires sign <= 1 && (sign == 1 ==> s != "" && s[0] == '-') && 1 <= k && sign + k <= |s|
    requires IsDigit(s[sign]) && (s[sign] == '0' ==> k == 1) && forall c <- s[sign..][..k] :: IsDigit(c)
    ensures ValidNumber(s[..sign + k])
  {
    var t, d := s[..sign + k], s[sign..][..k];
    assert d[0] == s[sign];
    if sign == 1 {
      assert t[0] == '-' && t[1..] == d;
    } else {
      assert t == d;
    }
    if d[0] == '0' {
      assert d == "0";
    }
  }

  lemma {:induction false} NumberOf(s: string)
    requires ReadInt(s).Ok?
    ensures var n := |s| - |ReadInt(s).rest|;
            && ValidNumber(s[..n]) && s == s[..n] + ReadInt(s).rest && ReadInt(s).value == ReadDecimal(s[..n])
  {
    var sign := if s[0] == '-' then 1 else 0;
    var k := Digits(s[sign..]);
    DigitsAre(s[sign..]);
    var m := if s[sign] == '0' then 1 else k;
    assert s[sign..][0] == s[sign] && s[sign..][..k][0] == s[sign];
    assert s[sign..][..m] <= s[sign..][..k];
    SignedNumber(s, sign, m);
  }

  lemma {:induction false} TreeOf(s: string) returns (t: Tree)
    requires ReadValue(s).Ok?
    ensures ValidTree(t) && Meaning(t) == ReadValue(s).value && s == TreeText(t) + ReadValue(s).rest
    decreases |s|, 2
  {
    if s[0] == '"' {
      t := QuotedOf(s);
    } else if s[0] == '[' {
      t := ListOf(s);
    } else if s[0] == '{' {
      t := TableOf(s);
    } else {
      t := ScalarOf(s);
    }
  }

  lemma {:induction false} QuotedOf(s: string) returns (t: Tree)
    requires ReadValue(s).Ok? && s[0] == '"'
    ensures ValidTree(t) && Meaning(t) == ReadValue(s).value && s == TreeText(t) + ReadValue(s).rest
  {
    Uncons(s);
    var gs := GlyphsOf(s[1..]);
    t := Quoted(gs);
    Enclosed(GlyphsText(gs), ReadString(s[1..]).rest);
  }

  lemma {:induction false} Enclosed(text: string, rest: string)
    ensures ['"'] + (text + (['"'] + rest)) == ['"'] + (text + ['"']) + rest
  {
  }

  lemma {:induction false} ScalarOf(s: string) returns (t: Tree)
    requires ReadValue(s).Ok? && s[0] != '"' && s[0] != '[' && s[0] != '{'
    ensures ValidTree(t) && Meaning(t) == ReadValue(s).value && s == TreeText(t) + ReadValue(s).rest
  {
    if StartsWith(s, "null") {
      t := Word("null");
    } else if StartsWith(s, "true") {
      t := Word("true");
    } else if StartsWith(s, "false") {
      t := Word("false");
    } else {
      NumberOf(s);
      t := Number(s[..|s| - |ReadInt(s).rest|]);
    }
  }

  lemma {:induction false} ListOf(s: string) returns (t: Tree)
    requires ReadValue(s).Ok? && s[0] == '['
    ensures ValidTree(t) && Meaning(t) == ReadValue(s).value && s == TreeText(t) + ReadValue(s).rest
    decreases |s|, 1
  {
    var b := BlankBefore(s[1..]);
    var u := SkipSpace(s[1..]);
    assert s == ['['] + s[1..];
    if u[0] == ']' {
      t := List(b, []);
      assert u == [']'] + u[1..];
      assert s == ['['] + (b + [']']) + u[1..];
    } else {
      var items := ItemsOf(b, u);
      t := List("", items);
      Regroup(['['], ItemsText(items), ReadItems(u).rest);
    }
  }

  // A value, and the separator behind it.
  lemma {:induction false} ValueThen(s: string) returns (t: Tree, after: string, c: char, more: string)
    requires ReadValue(s).Ok? && SkipSpace(ReadValue(s).rest) != ""
    ensures ValidTree(t) && Meaning(t) == ReadValue(s).value && Blank(after)
    ensures s == TreeText(t) + (after + ([c] + more)) && |more| < |s|
    ensures SkipSpace(ReadValue(s).rest) == [c] + more
    decreases |s|, 3
  {
    t := TreeOf(s);
    after := BlankBefore(ReadValue(s).rest);
    var u := SkipSpace(ReadValue(s).rest);
    c, more := u[0], u[1..];
    assert u == [c] + more;
  }

  // One item, and the separator behind it.
  lemma {:induction false} ItemOf(b: string, s: string) returns (i: Item, c: char, more: string)
    requires Blank(b) && ReadItems(s).Ok?
    ensures i.before == b && Blank(i.after) && ValidTree(i.tree)
    ensures s == ItemText(i, [c] + more) && |more| < |s| && (c == ']' || c == ',')
    ensures if c == ']' then ReadItems(s) == Ok([Meaning(i.tree)], more)
            else
              var r := ReadItems(SkipSpace(more)); r.Ok? && ReadItems(s) == Ok([Meaning(i.tree)] + r.value, r.rest)
    decreases |s|, 4
  {
    var t, after;
    t, after, c, more := ValueThen(s);
    i := Item(b, t, after);
    Cons(c, more);
  }

  lemma {:induction false} ItemsOf(b: string, s: string) returns (items: seq<Item>)
    requires Blank(b) && ReadItems(s).Ok?
    ensures items != [] && forall i <- items :: Blank(i.before) && Blank(i.after) && ValidTree(i.tree)
    ensures ItemsMeaning(items) == ReadItems(s).value && b + s == ItemsText(items) + ReadItems(s).rest
    decreases |s|, 5
  {
    var i, c, more := ItemOf(b, s);
    if c == ']' {
      items := [i];
      assert items[1..] == [] && [Meaning(i.tree)] + [] == [Meaning(i.tree)];
      ItemTail(i, ']', "", more);
      assert [']'] + "" == [']'] && "" + more == more;
    } else {
      var b1 := BlankBefore(more);
      var rest := ItemsOf(b1, SkipSpace(more));
      items := [i] + rest;
      assert items[0] == i && items[1..] == rest;
      ItemTail(i, ',', ItemsText(rest), ReadItems(s).rest);
    }
  }

  lemma {:induction false} TableOf(s: string) returns (t: Tree)
    requires ReadValue(s).Ok? && s[0] == '{'
    ensures ValidTree(t) && Meaning(t) == ReadValue(s).value && s == TreeText(t) + ReadValue(s).rest
    decreases |s|, 1
  {
    var b := BlankBefore(s[1..]);
    var u := SkipSpace(s[1..]);
    assert s == ['{'] + s[1..];
    if u[0] == '}' {
      t := Table(b, []);
      assert u == ['}'] + u[1..];
      assert s == ['{'] + (b + ['}']) + u[1..];
    } else {
      var members := MembersOf(b, u);
      t := Table("", members);
      Regroup(['{'], MembersText(members), ReadFields(u).rest);
    }
  }

  // A key, and the blanks around the colon behind it.
  lemma {:induction false} KeyThen(s: string) returns (key: seq<Glyph>, b: string, a: string, value: string)
    requires s != "" && s[0] == '"' && ReadString(s[1..]).Ok?
    requires var colon := SkipSpace(ReadString(s[1..]).rest); colon != "" && colon[0] == ':'
    ensures ValidGlyphs(key) && GlyphsString(key) == ReadString(s[1..]).value && Blank(b) && Blank(a)
    ensures ReadString(s[1..]).rest == b + ([':'] + (a + value))
    ensures s == ['"'] + (GlyphsText(key) + (['"'] + (b + ([':'] + (a + value)))))
    ensures value == SkipSpace(SkipSpace(ReadString(s[1..]).rest)[1..]) && |value| < |s|
  {
    key := GlyphsOf(s[1..]);
    var rest := ReadString(s[1..]).rest;
    var colon := SkipSpace(rest);
    b := BlankBefore(rest);
    a := BlankBefore(colon[1..]);
    value := SkipSpace(colon[1..]);
    Uncons(s);
    Uncons(colon);
  }

  lemma {:induction false} Uncons(s: string)
    requires s != ""
    ensures s == [s[0]] + s[1..]
  {
  }

  // One member, and the separator behind it.
  lemma {:induction false} MemberOf(b: string, s: string) returns (m: Member, c: char, more: string)
    requires Blank(b) && ReadFields(s).Ok?
    ensures m.before == b && Spaced(m) && ValidGlyphs(m.key) && ValidTree(m.tree)
    ensures s == MemberText(m, [c] + more) && |more| < |s| && (c == '}' || c == ',')
    ensures var f := Field(GlyphsString(m.key), Meaning(m.tree));
            if c == '}' then ReadFields(s) == Ok([f], more)
            else
              var r := ReadFields(SkipSpace(more)); r.Ok? && ReadFields(s) == Ok([f] + r.value, r.rest)
    decreases |s|, 4
  {
    var key, beforeColon, afterColon, value := KeyThen(s);
    var t, after;
    t, after, c, more := ValueThen(value);
    m := Member(b, key, beforeColon, afterColon, t, after);
    Cons(c, more);
    Cons(':', afterColon + value);
  }

  lemma {:induction false} MembersOf(b: string, s: string) returns (members: seq<Member>)
    requires Blank(b) && ReadFields(s).Ok?
    ensures members != [] && forall m <- members :: Spaced(m) && ValidGlyphs(m.key) && ValidTree(m.tree)
    ensures MembersMeaning(members) == ReadFields(s).value && b + s == MembersText(members) + ReadFields(s).rest
    decreases |s|, 5
  {
    var m, c, more := MemberOf(b, s);
    var f := Field(GlyphsString(m.key), Meaning(m.tree));
    if c == '}' {
      members := [m];
      assert members[1..] == [] && [f] + [] == [f];
      MemberTail(m, '}', "", more);
      assert ['}'] + "" == ['}'] && "" + more == more;
    } else {
      var b1 := BlankBefore(more);
      var rest := MembersOf(b1, SkipSpace(more));
      members := [m] + rest;
      assert members[0] == m && members[1..] == rest;
      MemberTail(m, ',', MembersText(rest), ReadFields(s).rest);
    }
  }

  // ---- the parser is the reader of the grammar -----------------------------------------------

  // A text of the value: a tree with blanks around it.
  ghost predicate Writes(s: string, v: Json) {
    exists before: string, t: Tree, after: string ::
      Blank(before) && Blank(after) && ValidTree(t) && s == before + (TreeText(t) + after) && Meaning(t) == v
  }

  lemma {:induction false} BlankEnds(t: Tree, after: string)
    requires Blank(after)
    ensures Ends(t, after) && SkipSpace(after) == ""
  {
    SkipBlank(after, "");
    assert after + "" == after;
    if after != "" {
      assert after[0] in after;
    }
  }

  // Sound and complete: a text parses to a value exactly when the grammar writes the value so.
  lemma {:induction false} ParseExactly(s: string, v: Json)
    ensures Parse(s) == Some(v) <==> Writes(s, v)
  {
    if Parse(s) == Some(v) {
      var before := BlankBefore(s);
      var t := TreeOf(SkipSpace(s));
      var after := BlankBefore(ReadValue(SkipSpace(s)).rest);
      assert after + "" == after;
      assert s == before + (TreeText(t) + after);
    }
    if Writes(s, v) {
      var before: string, t: Tree, after: string :|
        Blank(before) && Blank(after) && ValidTree(t) && s == before + (TreeText(t) + after) && Meaning(t) == v;
      SkipBlank(before, TreeText(t) + after);
      BeginsSolid(t, after);
      BlankEnds(t, after);
      TreeIsRead(t, after);
    }
  }

  // An object has each key once, in order, with the value that was written last.
  function LastValue(pairs: seq<Field>, key: string): Option<Json> {
    if pairs == [] then None
    else if pairs[|pairs| - 1].key == key then Some(pairs[|pairs| - 1].value)
    else LastValue(pairs[..|pairs| - 1], key)
  }

  function ValueOf(fields: seq<Field>, key: string): Option<Json> {
    if fields == [] then None
    else if fields[0].key == key then Some(fields[0].value)
    else ValueOf(fields[1..], key)
  }

  lemma {:induction false} InsertValue(fields: seq<Field>, f: Field, key: string)
    ensures ValueOf(Insert(fields, f), key) == if key == f.key then Some(f.value) else ValueOf(fields, key)
  {
    if fields != [] {
      if f.key == fields[0].key {
        assert ([f] + fields[1..])[1..] == fields[1..];
      } else if Less(f.key, fields[0].key) {
        assert ([f] + fields)[1..] == fields;
      } else {
        InsertValue(fields[1..], f, key);
        var rest := Insert(fields[1..], f);
        assert ([fields[0]] + rest)[1..] == rest;
      }
    } else {
      assert [f][1..] == [];
    }
  }

  lemma {:induction false} DictKeepsLast(pairs: seq<Field>, key: string)
    ensures ValueOf(Dict(pairs), key) == LastValue(pairs, key)
  {
    if pairs != [] {
      DictKeepsLast(pairs[..|pairs| - 1], key);
      InsertValue(Dict(pairs[..|pairs| - 1]), pairs[|pairs| - 1], key);
    }
  }
}
