/** The parser and the end of its text: a complete object stays what it is whatever follows it, so no
    proper piece of one parses. */
module JsonPieces {
  import opened Prelude
  import opened Json
  import opened Text
  import TornJson

  // What was read stays, and what follows is left.
  ghost predicate StaysRead<T(!new)>(r: Parsed<T>, r1: Parsed<T>, more: string) {
    r.Ok? ==> r1 == Ok(r.value, r.rest + more)
  }

  lemma {:induction false} DropMore(s: string, k: nat, more: string)
    requires k <= |s|
    ensures (s + more)[k..] == s[k..] + more
  {
  }

  lemma {:induction false} SkipMore(s: string, more: string)
    ensures SkipSpace(s) != "" ==> SkipSpace(s + more) == SkipSpace(s) + more
  {
    TornJson.BlankSkips(s, more);
  }

  lemma {:induction false} HexMore(s: string, more: string)
    requires ReadHex4(s).Some?
    ensures ReadHex4(s + more) == ReadHex4(s)
  {
  }

  lemma {:induction false} CodePointMore(s: string, more: string)
    ensures StaysRead(ReadCodePoint(s), ReadCodePoint(s + more), more)
  {
    if ReadCodePoint(s).Ok? {
      HexMore(s, more);
      DropMore(s, 4, more);
      if 0xD800 <= ReadHex4(s).value < 0xE000 {
        DropMore(s, 6, more);
        HexMore(s[6..], more);
        DropMore(s, 10, more);
      }
    }
  }

  lemma {:induction false} EscapeMore(s: string, more: string)
    ensures StaysRead(ReadEscape(s), ReadEscape(s + more), more)
  {
    if s != "" {
      DropMore(s, 1, more);
      if s[0] == 'u' {
        CodePointMore(s[1..], more);
      }
    }
  }

  lemma {:induction false} StringMore(s: string, more: string)
    ensures StaysRead(ReadString(s), ReadString(s + more), more)
    decreases |s|
  {
    if ReadString(s).Ok? {
      DropMore(s, 1, more);
      if s[0] == '\\' {
        EscapeMore(s[1..], more);
        StringMore(ReadEscape(s[1..]).rest, more);
      } else if s[0] != '"' {
        StringMore(s[1..], more);
      }
    }
  }

  lemma {:induction false} DigitsMore(s: string, more: string)
    requires Digits(s) < |s|
    ensures Digits(s + more) == Digits(s)
  {
    DropMore(s, 1, more);
    if IsDigit(s[0]) {
      DigitsMore(s[1..], more);
    }
  }

  lemma {:induction false} IntMore(s: string, more: string)
    requires ReadInt(s).Ok? && ReadInt(s).rest != ""
    ensures StaysRead(ReadInt(s), ReadInt(s + more), more)
  {
    var sign := if s != "" && s[0] == '-' then 1 else 0;
    var k := Digits(s[sign..]);
    DropMore(s, sign, more);
    var n := sign + if s[sign] == '0' then 1 else k;
    if s[sign] == '0' {
      LeadingZero(s[sign..], more);
    } else {
      DigitsMore(s[sign..], more);
    }
    DropMore(s, n, more);
    assert (s + more)[..n] == s[..n];
  }

  lemma {:induction false} LeadingZero(s: string, more: string)
    requires s != "" && s[0] == '0'
    ensures Digits(s + more) > 0
  {
    DropMore(s, 1, more);
  }

  lemma {:induction false} WordMore(s: string, word: string, more: string)
    requires StartsWith(s, word)
    ensures StartsWith(s + more, word) && (s + more)[|word|..] == s[|word|..] + more
  {
    assert (s + more)[..|word|] == s[..|word|];
  }

  lemma {:induction false} NoWordMore(s: string, word: string, more: string)
    requires s != "" && word != "" && s[0] != word[0]
    ensures !StartsWith(s, word) && !StartsWith(s + more, word)
  {
    assert (s + more)[0] == s[0];
  }

  // A value that is closed by its last character, or followed by something, is not changed by more.
  lemma {:induction false} ValueMore(s: string, more: string)
    requires ReadValue(s).Ok? && (ReadValue(s).value.Int? ==> ReadValue(s).rest != "")
    ensures ReadValue(s + more) == Ok(ReadValue(s).value, ReadValue(s).rest + more)
    decreases |s|, 1
  {
    DropMore(s, 1, more);
    if s[0] == '"' {
      StringMore(s[1..], more);
    } else if s[0] == '[' {
      ArrayMore(s, more);
    } else if s[0] == '{' {
      ObjectMore(s, more);
    } else {
      ScalarMore(s, more);
    }
  }

  lemma {:induction false} ScalarMore(s: string, more: string)
    requires ReadValue(s).Ok? && (ReadValue(s).value.Int? ==> ReadValue(s).rest != "")
    requires s[0] != '"' && s[0] != '[' && s[0] != '{'
    ensures ReadValue(s + more) == Ok(ReadValue(s).value, ReadValue(s).rest + more)
  {
    if StartsWith(s, "null") {
      WordMore(s, "null", more);
    } else if StartsWith(s, "true") {
      WordFirst(s, "true");
      NoWordMore(s, "null", more);
      WordMore(s, "true", more);
    } else if StartsWith(s, "false") {
      WordFirst(s, "false");
      NoWordMore(s, "null", more);
      NoWordMore(s, "true", more);
      WordMore(s, "false", more);
    } else {
      IntMore(s, more);
      NoWordMore(s, "null", more);
      NoWordMore(s, "true", more);
      NoWordMore(s, "false", more);
    }
  }

  lemma {:induction false} WordFirst(s: string, word: string)
    requires StartsWith(s, word) && word != ""
    ensures s != "" && s[0] == word[0]
  {
    assert s[..|word|][0] == s[0];
  }

  lemma {:induction false} ArrayMore(s: string, more: string)
    requires ReadValue(s).Ok? && s[0] == '['
    ensures ReadValue(s + more) == Ok(ReadValue(s).value, ReadValue(s).rest + more)
    decreases |s|, 0
  {
    DropMore(s, 1, more);
    SkipMore(s[1..], more);
    var t := SkipSpace(s[1..]);
    if t[0] == ']' {
      DropMore(t, 1, more);
    } else {
      ItemsMore(t, more);
    }
  }

  lemma {:induction false} ObjectMore(s: string, more: string)
    requires ReadValue(s).Ok? && s[0] == '{'
    ensures ReadValue(s + more) == Ok(ReadValue(s).value, ReadValue(s).rest + more)
    decreases |s|, 0
  {
    DropMore(s, 1, more);
    SkipMore(s[1..], more);
    var t := SkipSpace(s[1..]);
    if t[0] == '}' {
      DropMore(t, 1, more);
    } else {
      FieldsMore(t, more);
    }
  }

  lemma {:induction false} ItemsMore(s: string, more: string)
    requires ReadItems(s).Ok?
    ensures ReadItems(s + more) == Ok(ReadItems(s).value, ReadItems(s).rest + more)
    decreases |s|, 2
  {
    ValueMore(s, more);
    var rest := ReadValue(s).rest;
    SkipMore(rest, more);
    var t := SkipSpace(rest);
    DropMore(t, 1, more);
    if t[0] == ',' {
      SkipMore(t[1..], more);
      ItemsMore(SkipSpace(t[1..]), more);
    }
  }

  lemma {:induction false} FieldsMore(s: string, more: string)
    requires ReadFields(s).Ok?
    ensures ReadFields(s + more) == Ok(ReadFields(s).value, ReadFields(s).rest + more)
    decreases |s|, 2
  {
    DropMore(s, 1, more);
    StringMore(s[1..], more);
    var rest := ReadString(s[1..]).rest;
    SkipMore(rest, more);
    var colon := SkipSpace(rest);
    DropMore(colon, 1, more);
    SkipMore(colon[1..], more);
    var value := SkipSpace(colon[1..]);
    ValueMore(value, more);
    var rest' := ReadValue(value).rest;
    SkipMore(rest', more);
    var t := SkipSpace(rest');
    DropMore(t, 1, more);
    if t[0] == ',' {
      SkipMore(t[1..], more);
      FieldsMore(SkipSpace(t[1..]), more);
    }
  }

  // ---- pieces of an entry --------------------------------------------------------------------

  lemma {:induction false} BlankIsSpace(s: string, k: nat)
    requires SkipSpace(s) == "" && k < |s|
    ensures IsSpace(s[k])
  {
    if k > 0 {
      BlankIsSpace(s[1..], k - 1);
    }
  }

  // A proper piece of an entry does not parse.
  lemma {:induction false} PieceParses(line: string, k: nat)
    requires TornJson.EntryText(line) && line[|line| - 1] == '}' && 1 <= k < |line|
    ensures Parse(line[..k]) == None
  {
    var s, q := line[..k], line[k..];
    if ReadValue(s).Ok? {
      ObjectMore(s, q);
      assert s + q == line;
      var rest := ReadValue(s).rest + q;
      BlankIsSpace(rest, |rest| - 1);
    }
  }

  // What is read from the front of a text that ends in an entry leaves all of the entry.
  lemma {:induction false} LeavesEntry(s: string, q: string, line: string, k: nat)
    requires TornJson.EntryText(line) && 1 <= k <= |line| && q == line[k..] && s != "" && s[0] == '{'
    requires TornJson.EndsIn(s + q, line) && s + q != line && ReadValue(s).Ok?
    ensures var rest := ReadValue(s).rest; k <= |rest| && rest[|rest| - k] == '{'
  {
    ObjectMore(s, q);
    TornJson.BracketStops(s + q, line);
    Overlap(ReadValue(s).rest, q, line, k);
  }

  // Nor does a piece, or the whole, behind a torn line that begins like an entry.
  lemma {:induction false} PieceBehindParses(t: string, line: string, k: nat)
    requires TornJson.EntryText(line) && 1 <= k <= |line| && t != "" && t[0] == '{'
    ensures Parse(t + line[..k]) == None
  {
    var s, q := t + line[..k], line[k..];
    if ReadValue(s).Ok? {
      Rejoin(t, line, k);
      LeavesEntry(s, q, line, k);
      var rest := ReadValue(s).rest;
      NotBlank(rest, |rest| - k);
    }
  }

  lemma {:induction false} NotBlank(s: string, k: nat)
    requires k < |s| && s[k] == '{'
    ensures SkipSpace(s) != ""
  {
    if SkipSpace(s) == "" {
      BlankIsSpace(s, k);
    }
  }

  lemma {:induction false} Rejoin(t: string, line: string, k: nat)
    requires k <= |line| && t != ""
    ensures var all := t + line[..k] + line[k..]; TornJson.EndsIn(all, line) && all != line
  {
    assert t + line[..k] + line[k..] == t + line;
    assert (t + line)[|t|..] == line;
  }

  lemma {:induction false} Overlap(rest: string, q: string, line: string, k: nat)
    requires 1 <= k <= |line| && q == line[k..] && TornJson.EndsIn(rest + q, line)
    ensures k <= |rest| && rest[|rest| - k] == line[0]
  {
    var all := rest + q;
    assert all[|all| - |line|] == all[|all| - |line|..][0];
  }
}
