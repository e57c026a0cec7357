/** What the parser makes of a torn line and the entry, or the piece of one, that is written behind it. */
module TornJson {
  import opened Prelude
  import opened Json
  import Text

  // ---- a parser that runs into an entry ------------------------------------------------------

  // The text of one entry: an object whose first key is "data".
  ghost predicate EntryText(line: string) {
    && |line| > 3 && line[0] == '{' && line[1] == '"' && line[2] == 'd'
    && ReadValue(line).Ok? && SkipSpace(ReadValue(line).rest) == ""
  }

  predicate EndsIn(s: string, line: string) {
    |line| <= |s| && s[|s| - |line|..] == line
  }

  // Where a reader can stop: before the entry, or, when a string was open, behind its first quote.
  predicate Stops(rest: string, line: string) {
    EndsIn(rest, line) || (rest != "" && rest[0] == 'd')
  }

  lemma {:induction false} DropOne(s: string, line: string)
    requires EndsIn(s, line) && line != "" && (s == "" || s[0] != line[0])
    ensures s != "" && EndsIn(s[1..], line)
  {
    assert |s| == |line| ==> s == line;
  }

  lemma {:induction false} DropSome(s: string, k: nat, line: string)
    requires EndsIn(s, line) && k <= |s| - |line|
    ensures EndsIn(s[k..], line)
  {
  }

  lemma {:induction false} SkipStops(s: string, line: string)
    requires EntryText(line) && EndsIn(s, line)
    ensures EndsIn(SkipSpace(s), line)
  {
    if IsSpace(s[0]) {
      DropOne(s, line);
      SkipStops(s[1..], line);
    }
  }

  predicate IsPunctuation(c: char) {
    c == ',' || c == ':' || c == ']' || c == '}'
  }

  // Punctuation that is found behind a value or a key lies before the entry.
  lemma {:induction false} PunctuationStops(rest: string, line: string)
    requires EntryText(line) && Stops(rest, line)
    ensures var t := SkipSpace(rest);
            t != "" && (IsPunctuation(t[0]) ==> EndsIn(t[1..], line) && EndsIn(SkipSpace(t[1..]), line))
  {
    var t := SkipSpace(rest);
    if EndsIn(rest, line) {
      SkipStops(rest, line);
      if IsPunctuation(t[0]) {
        DropOne(t, line);
        SkipStops(t[1..], line);
      }
    }
  }

  // The entry's brace is no hex digit, so four hex digits lie before it.
  lemma {:induction false} HexStops(s: string, line: string)
    requires EntryText(line) && EndsIn(s, line) && ReadHex4(s).Some?
    ensures |s| - |line| >= 4
  {
    assert s[|s| - |line|] == s[|s| - |line|..][0] == '{';
  }

  lemma {:induction false} CodePointStops(s: string, line: string)
    requires EntryText(line) && EndsIn(s, line) && ReadCodePoint(s).Ok?
    ensures EndsIn(ReadCodePoint(s).rest, line)
  {
    HexStops(s, line);
    DropSome(s, 4, line);
    if 0xD800 <= ReadHex4(s).value < 0xE000 {
      assert s[|s| - |line|] == s[|s| - |line|..][0] == '{';
      DropSome(s, 6, line);
      HexStops(s[6..], line);
      DropSome(s, 10, line);
    }
  }

  lemma {:induction false} EscapeStops(s: string, line: string)
    requires EntryText(line) && EndsIn(s, line) && ReadEscape(s).Ok?
    ensures EndsIn(ReadEscape(s).rest, line)
  {
    DropOne(s, line);
    if s[0] == 'u' {
      CodePointStops(s[1..], line);
    }
  }

  lemma {:induction false} StringStops(s: string, line: string)
    requires EntryText(line) && EndsIn(s, line) && ReadString(s).Ok?
    ensures Stops(ReadString(s).rest, line)
    decreases |s|
  {
    if s[0] == '{' {
      if s[1..] != "" && s[1] == '"' {
        OpenBrace(s, line);
      } else {
        assert s != line;
        DropSome(s, 1, line);
        StringStops(s[1..], line);
      }
    } else {
      DropOne(s, line);
      if s[0] == '\\' {
        EscapeStops(s[1..], line);
        StringStops(ReadEscape(s[1..]).rest, line);
      } else if s[0] != '"' {
        StringStops(s[1..], line);
      }
    }
  }

  lemma {:induction false} OpenBrace(s: string, line: string)
    requires EntryText(line) && EndsIn(s, line) && |s| > 1 && s[0] == '{' && s[1] == '"'
    ensures ReadString(s).Ok? && Stops(ReadString(s).rest, line)
  {
    assert ReadString(s[1..]) == Ok("", s[1..][1..]);
    assert s[1..][1..] == s[2..];
    if s == line {
      assert s[2..][0] == 'd';
    } else {
      var k := |s| - |line|;
      assert s[k] == s[k..][0] == '{';
      DropSome(s, 2, line);
    }
  }

  // A value that begins before the entry also ends before it, unless it opens a string.
  lemma {:induction false} ValueStops(s: string, line: string)
    requires EntryText(line) && EndsIn(s, line) && s != line && ReadValue(s).Ok?
    ensures Stops(ReadValue(s).rest, line)
    decreases |s|, 1
  {
    DropSome(s, 1, line);
    if s[0] == '"' {
      StringStops(s[1..], line);
    } else if s[0] == '[' || s[0] == '{' {
      BracketStops(s, line);
    } else {
      ScalarStops(s, line);
    }
  }

  lemma {:induction false} BracketStops(s: string, line: string)
    requires EntryText(line) && EndsIn(s, line) && s != line && ReadValue(s).Ok?
    requires s[0] == '[' || s[0] == '{'
    ensures EndsIn(ReadValue(s).rest, line)
    decreases |s|, 0
  {
    DropSome(s, 1, line);
    SkipStops(s[1..], line);
    var t := SkipSpace(s[1..]);
    if t[0] == ']' || t[0] == '}' {
      DropOne(t, line);
    }
    if s[0] == '[' {
      if t[0] != ']' {
        ItemsStop(t, line);
      }
    } else if t[0] != '}' {
      FieldsStop(t, line);
    }
  }

  lemma {:induction false} WordStops(s: string, word: string, line: string)
    requires EntryText(line) && EndsIn(s, line) && StartsWith(s, word) && '{' !in word
    ensures EndsIn(s[|word|..], line)
  {
    var k := |s| - |line|;
    assert s[k] == s[k..][0] == '{';
    assert forall i | 0 <= i < |word| :: s[i] == s[..|word|][i] == word[i] && word[i] in word;
  }

  lemma {:induction false} DigitsStop(s: string, line: string)
    requires EntryText(line) && EndsIn(s, line)
    ensures Digits(s) <= |s| - |line|
  {
    if Text.IsDigit(s[0]) {
      DropOne(s, line);
      DigitsStop(s[1..], line);
    }
  }

  lemma {:induction false} ScalarStops(s: string, line: string)
    requires EntryText(line) && EndsIn(s, line) && ReadValue(s).Ok?
    requires s[0] != '"' && s[0] != '[' && s[0] != '{'
    ensures EndsIn(ReadValue(s).rest, line)
  {
    if StartsWith(s, "null") {
      WordStops(s, "null", line);
    } else if StartsWith(s, "true") {
      WordStops(s, "true", line);
    } else if StartsWith(s, "false") {
      WordStops(s, "false", line);
    } else {
      IntStops(s, line);
    }
  }

  lemma {:induction false} IntStops(s: string, line: string)
    requires EntryText(line) && EndsIn(s, line) && ReadInt(s).Ok?
    ensures EndsIn(ReadInt(s).rest, line)
  {
    var sign := if s[0] == '-' then 1 else 0;
    if sign == 1 {
      DropOne(s, line);
    }
    DigitsStop(s[sign..], line);
    DropSome(s, sign + if s[sign] == '0' then 1 else Digits(s[sign..]), line);
  }

  lemma {:induction false} ItemsStop(s: string, line: string)
    requires EntryText(line) && EndsIn(s, line) && ReadItems(s).Ok?
    ensures EndsIn(ReadItems(s).rest, line)
    decreases |s|, 2
  {
    assert s != line;
    ValueStops(s, line);
    var rest := ReadValue(s).rest;
    PunctuationStops(rest, line);
    var t := SkipSpace(rest);
    if t[0] == ',' {
      ItemsStop(SkipSpace(t[1..]), line);
    }
  }

  // The value of a field, which cannot be the entry, since that would end the text.
  lemma {:induction false} FieldStops(s: string, line: string)
    requires EntryText(line) && EndsIn(s, line) && ReadFields(s).Ok?
    ensures s != "" && ReadString(s[1..]).Ok?
    ensures var colon := SkipSpace(ReadString(s[1..]).rest);
            && colon != "" && colon[0] == ':'
            && var value := SkipSpace(colon[1..]);
               EndsIn(value, line) && value != line && |value| < |s| && ReadValue(value).Ok?
  {
    DropOne(s, line);
    StringStops(s[1..], line);
    PunctuationStops(ReadString(s[1..]).rest, line);
  }

  lemma {:induction false} FieldsStop(s: string, line: string)
    requires EntryText(line) && EndsIn(s, line) && ReadFields(s).Ok?
    ensures EndsIn(ReadFields(s).rest, line)
    decreases |s|, 2
  {
    FieldStops(s, line);
    var value := SkipSpace(SkipSpace(ReadString(s[1..]).rest)[1..]);
    ValueStops(value, line);
    var rest := ReadValue(value).rest;
    PunctuationStops(rest, line);
    var t := SkipSpace(rest);
    if t[0] == ',' {
      FieldsStop(SkipSpace(t[1..]), line);
    }
  }

  lemma {:induction false} BlankSkips(t: string, line: string)
    ensures SkipSpace(t) == "" ==> SkipSpace(t + line) == SkipSpace(line)
    ensures SkipSpace(t) != "" ==> SkipSpace(t + line) == SkipSpace(t) + line
  {
    if t == "" {
      assert t + line == line;
    } else {
      assert (t + line)[1..] == t[1..] + line;
      if IsSpace(t[0]) {
        BlankSkips(t[1..], line);
      }
    }
  }

  // Behind anything but blanks, an entry does not parse.
  lemma {:induction false} JoinedParses(t: string, line: string)
    requires EntryText(line)
    ensures Parse(t + line) == if SkipSpace(t) == "" then Parse(line) else None
  {
    BlankSkips(t, line);
    if SkipSpace(t) != "" {
      var s := SkipSpace(t) + line;
      assert s[|s| - |line|..] == line;
      if ReadValue(s).Ok? {
        ValueStops(s, line);
        if EndsIn(ReadValue(s).rest, line) {
          SkipStops(ReadValue(s).rest, line);
        }
      }
    }
  }
}
