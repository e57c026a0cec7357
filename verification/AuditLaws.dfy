/** What the hash chain proves about the log. */
module AuditLaws {
  import opened Prelude
  import opened Json
  import opened Audit
  import JsonLaws
  import Text

  // ---- lines ---------------------------------------------------------------------------------

  // The text is empty or ends its last line.
  predicate Ended(text: string) {
    text == "" || text[|text| - 1] == '\n'
  }

  // How much of the text lies before the end of its last newline.
  function Break(text: string): (k: nat)
    ensures k <= |text|
  {
    if text == "" || text[|text| - 1] == '\n' then |text| else Break(text[..|text| - 1])
  }

  // The lines that do end in a newline, and what follows the last newline.
  function Whole(text: string): string {
    text[..Break(text)]
  }

  function Torn(text: string): string {
    text[Break(text)..]
  }

  lemma {:induction false} BreakSplits(text: string)
    ensures Ended(text[..Break(text)]) && '\n' !in text[Break(text)..]
  {
    if text != "" && text[|text| - 1] != '\n' {
      var init := text[..|text| - 1];
      BreakSplits(init);
      var k := Break(init);
      assert text[..k] == init[..k];
      assert text[k..] == init[k..] + [text[|text| - 1]];
    } else {
      assert text[..|text|] == text;
    }
  }

  lemma {:induction false} Splits(text: string)
    ensures text == Whole(text) + Torn(text) && Ended(Whole(text)) && '\n' !in Torn(text)
  {
    BreakSplits(text);
  }

  lemma {:induction false} LinesOne(line: string, rest: string)
    requires '\n' !in line
    ensures Lines(line + "\n" + rest) == [line] + Lines(rest)
  {
    Text.FirstSeparator(line, rest, '\n');
    var t := line + "\n" + rest;
    assert t[..|line|] == line && t[|line| + 1..] == rest;
  }

  lemma {:induction false} FirstLine(text: string) returns (line: string, rest: string)
    requires Ended(text) && text != ""
    ensures text == line + "\n" + rest && '\n' !in line && Ended(rest)
  {
    var k := Text.IndexOf(text, '\n');
    assert text[..|text|] == text && text[|text| - 1] in text;
    line, rest := text[..k], text[k + 1..];
    assert rest != "" ==> rest[|rest| - 1] == text[|text| - 1];
  }

  lemma {:induction false} Glue(line: string, a: seq<string>, b: seq<string>)
    ensures [line] + (a + b) == [line] + a + b
  {
  }

  lemma {:induction false} LinesAppend(text: string, more: string)
    requires Ended(text)
    ensures Lines(text + more) == Lines(text) + Lines(more)
    decreases |text|
  {
    if text == "" {
      assert text + more == more;
    } else {
      var line, rest := FirstLine(text);
      LinesAppend(rest, more);
      LinesStep(text, line, rest, more);
      Glue(line, Lines(rest), Lines(more));
    }
  }

  lemma {:induction false} LinesStep(text: string, line: string, rest: string, more: string)
    requires text == line + "\n" + rest && '\n' !in line
    ensures Lines(text) == [line] + Lines(rest)
    ensures Lines(text + more) == [line] + Lines(rest + more)
  {
    LinesOne(line, rest);
    LinesOne(line, rest + more);
    RegroupTail(line, "\n", rest, more);
  }

  lemma {:induction false} RegroupTail(a: string, b: string, c: string, d: string)
    ensures a + b + c + d == a + b + (c + d)
  {
  }

  // ---- verification is a fold over the lines -------------------------------------------------

  lemma {:induction false} CheckAppend(sha: Sha, p: Progress, a: seq<string>, b: seq<string>)
    ensures CheckLines(sha, p, a + b) == CheckLines(sha, CheckLines(sha, p, a), b)
    decreases |a|
  {
    if a == [] {
      assert a + b == b;
    } else {
      CheckAppend(sha, CheckLine(sha, p, a[0]), a[1..], b);
      assert (a + b)[1..] == a[1..] + b;
    }
  }

  lemma {:induction false} CountGrows(sha: Sha, p: Progress, lines: seq<string>)
    ensures var q := CheckLines(sha, p, lines); p.Going? && q.Going? ==> p.n <= q.n
    decreases |lines|
  {
    if lines != [] {
      var q := CheckLine(sha, p, lines[0]);
      CountGrows(sha, q, lines[1..]);
      VerdictStays(sha, q, lines[1..]);
    }
  }

  lemma {:induction false} WholeIsFinal(sha: Sha, text: string, more: string)
    requires Ended(text)
    ensures var v := VerifyFile(sha, Some(text), None);
            var w := VerifyFile(sha, Some(text + more), None);
            && (v.Escapes? || !v.ok ==> w == v)
            && (w.Verdict? && w.ok ==> v.Verdict? && v.ok && v.n <= w.n)
  {
    LinesAppend(text, more);
    CheckAppend(sha, START, Lines(text), Lines(more));
    VerdictStays(sha, CheckLines(sha, START, Lines(text)), Lines(more));
    CountGrows(sha, CheckLines(sha, START, Lines(text)), Lines(more));
  }

  lemma {:induction false} SplitIsFinal(sha: Sha, text: string, more: string, longer: string)
    requires Ended(text)
    ensures var v := VerifyFile(sha, Some(text), None);
            var w, x := VerifyFile(sha, Some(text + more), None), VerifyFile(sha, Some(text + longer), None);
            && (v.Escapes? || !v.ok ==> w == v && x == v)
            && (x.Verdict? && x.ok ==> v.Verdict? && v.ok && v.n <= x.n)
  {
    WholeIsFinal(sha, text, more);
    WholeIsFinal(sha, text, longer);
  }

  // Once a log fails in its whole lines, it and every extension fail in the same way, whatever the
  // torn line and the continuation are; so the whole lines of a verifying log verify.
  lemma {:induction false} FailureIsFinal(sha: Sha, text: string, more: string)
    ensures var c, v := VerifyFile(sha, Some(Whole(text)), None), VerifyFile(sha, Some(text), None);
            var w := VerifyFile(sha, Some(text + more), None);
            && (c.Escapes? || !c.ok ==> v == c && w == c)
            && (w.Verdict? && w.ok ==> c.Verdict? && c.ok && c.n <= w.n)
  {
    Splits(text);
    var c, t := Whole(text), Torn(text);
    assert text + more == c + (t + more);
    SplitIsFinal(sha, c, t, t + more);
  }

  // ---- the chain -----------------------------------------------------------------------------

  // One verified line: the entry without its hash, and the hash.
  datatype Link = Link(entry: seq<Field>, hash: string)

  // The hash claimed by the last link.
  function Head(links: seq<Link>): string {
    if links == [] then GENESIS else links[|links| - 1].hash
  }

  function Input(links: seq<Link>): string
    requires links != []
  {
    HashInput(Head(links[..|links| - 1]), links[|links| - 1].entry)
  }

  // The last link belongs behind the ones before it.
  ghost predicate Fits(sha: Sha, links: seq<Link>)
    requires links != []
  {
    var before, l := links[..|links| - 1], links[|links| - 1];
    && l.hash == sha(HashInput(Head(before), l.entry))
    && WellFormed(Obj(l.entry))
    && Get(l.entry, "prev") == Some(Str(Head(before)))
    && SeqIs(Get(l.entry, "seq"), |links|)
  }

  ghost predicate Chain(sha: Sha, links: seq<Link>) {
    links == [] || (Fits(sha, links) && Chain(sha, links[..|links| - 1]))
  }

  // What a log holds: the links of its nonempty lines, as long as they are objects with a hash.
  function LinksOf(lines: seq<string>): seq<Link> {
    if lines == [] then []
    else
      var before, line := LinksOf(lines[..|lines| - 1]), lines[|lines| - 1];
      if line == "" || Parse(line).None? || !Parse(line).value.Obj? then before
      else
        var fields := Parse(line).value.fields;
        var h := Get(fields, "hash");
        if h.Some? && h.value.Str? then before + [Link(Remove(fields, "hash"), h.value.s)] else before
  }

  lemma {:induction false} RemoveWellFormed(fields: seq<Field>, key: string)
    requires WellFormed(Obj(fields))
    ensures WellFormed(Obj(Remove(fields, key)))
    ensures forall f <- Remove(fields, key) :: f in fields
  {
    if fields != [] && fields[0].key != key {
      RemoveWellFormed(fields[1..], key);
      forall g <- Remove(fields[1..], key)
        ensures g in fields && Less(fields[0].key, g.key)
      {
        assert g in fields[1..];
      }
    }
  }

  // A verifying log is a chain.
  lemma {:induction false} VerifiedIsChain(sha: Sha, lines: seq<string>)
    ensures var p, links := CheckLines(sha, START, lines), LinksOf(lines);
            p.Going? ==> |links| == p.n && Head(links) == p.prev && Chain(sha, links) && p.line == |lines|
  {
    if lines != [] {
      var init, line := lines[..|lines| - 1], lines[|lines| - 1];
      assert lines == init + [line];
      VerifiedIsChain(sha, init);
      CheckAppend(sha, START, init, [line]);
      var p, q := CheckLines(sha, START, init), CheckLines(sha, START, lines);
      assert q == CheckLine(sha, p, line) by {
        assert [line][1..] == [];
      }
      var before, links := LinksOf(init), LinksOf(lines);
      if q.Going? && links != before {
        var fields := Parse(line).value.fields;
        RemoveWellFormed(fields, "hash");
        assert links == before + [Link(Remove(fields, "hash"), q.prev)];
        assert links[..|before|] == before;
      }
    }
  }

  lemma {:induction false} LinksGrow(a: seq<string>, b: seq<string>)
    ensures LinksOf(a) <= LinksOf(a + b)
    decreases |b|
  {
    if b == [] {
      assert a + b == a;
    } else {
      var all, init := a + b, b[..|b| - 1];
      LinksGrow(a, init);
      assert all[..|all| - 1] == a + init;
    }
  }

  lemma {:induction false} PrefixLinks(sha: Sha, a: seq<string>, b: seq<string>)
    requires CheckLines(sha, START, a).Going?
    ensures var p, links := CheckLines(sha, START, a), LinksOf(a + b);
            p.n <= |links| && LinksOf(a) == links[..p.n] && p.prev == Head(links[..p.n])
  {
    LinksGrow(a, b);
    VerifiedIsChain(sha, a);
  }

  lemma {:induction false} Verifies(sha: Sha, text: string)
    requires var v := VerifyFile(sha, Some(text), None); v.Verdict? && v.ok
    ensures var v, p := VerifyFile(sha, Some(text), None), CheckLines(sha, START, Lines(text));
            p.Going? && v.n == p.n && v.head == p.prev
  {
  }

  // A prefix by whole lines that verifies, as every one of a verifying log does, holds the first
  // entries of the longer log, and its head is the hash of the last one of them.
  lemma {:induction false} PrefixHead(sha: Sha, text: string, more: string)
    requires Ended(text)
    requires var v := VerifyFile(sha, Some(text), None); v.Verdict? && v.ok
    ensures var v, links := VerifyFile(sha, Some(text), None), LinksOf(Lines(text + more));
            v.n <= |links| && LinksOf(Lines(text)) == links[..v.n] && v.head == Head(links[..v.n])
  {
    Verifies(sha, text);
    LinesAppend(text, more);
    PrefixLinks(sha, Lines(text), Lines(more));
  }

  // ---- tamper evidence -----------------------------------------------------------------------

  // What comparing two chains with the same head from the end turns up.
  datatype Evidence = Same | Collision(x: string, y: string) | GenesisPreimage(x: string)

  function Compare(a: seq<Link>, b: seq<Link>): Evidence {
    if a == [] && b == [] then Same
    else if a == [] then GenesisPreimage(Input(b))
    else if b == [] then GenesisPreimage(Input(a))
    else if Input(a) != Input(b) then Collision(Input(a), Input(b))
    else Compare(a[..|a| - 1], b[..|b| - 1])
  }

  // x was hashed when the chain was verified.
  predicate Hashed(links: seq<Link>, x: string) {
    links != [] && (x == Input(links) || Hashed(links[..|links| - 1], x))
  }

  // What the evidence claims about two chains.
  predicate Convincing(sha: Sha, a: seq<Link>, b: seq<Link>, e: Evidence) {
    && (e.Same? ==> a == b)
    && (e.Collision? ==> e.x != e.y && sha(e.x) == sha(e.y) && Hashed(a, e.x) && Hashed(b, e.y))
    && (e.GenesisPreimage? ==> sha(e.x) == GENESIS && (Hashed(a, e.x) || Hashed(b, e.x)))
  }

  lemma {:induction false} HeadLength(sha: Sha, links: seq<Link>)
    requires Chain(sha, links)
    ensures |Head(links)| == 64
  {
  }

  // The fixed length of the hash makes the hashed text unambiguous.
  lemma {:induction false} SplitInput(p: string, q: string, a: seq<Field>, b: seq<Field>)
    requires |p| == |q| && HashInput(p, a) == HashInput(q, b)
    requires WellFormed(Obj(a)) && WellFormed(Obj(b))
    ensures p == q && a == b
  {
    assert HashInput(p, a)[..|p|] == p && HashInput(p, a)[|p|..] == Canon(Obj(a));
    assert HashInput(q, b)[..|q|] == q && HashInput(q, b)[|q|..] == Canon(Obj(b));
    JsonLaws.CanonInjective(Obj(a), Obj(b));
  }

  // The last links agree in their input: then all depends on the links before.
  lemma {:induction false} CompareLast(sha: Sha, a: seq<Link>, b: seq<Link>)
    requires a != [] && b != [] && Chain(sha, a) && Chain(sha, b) && Head(a) == Head(b) && Input(a) == Input(b)
    ensures Head(a[..|a| - 1]) == Head(b[..|b| - 1]) && a[|a| - 1] == b[|b| - 1]
  {
    var a', b' := a[..|a| - 1], b[..|b| - 1];
    HeadLength(sha, a');
    HeadLength(sha, b');
    SplitInput(Head(a'), Head(b'), a[|a| - 1].entry, b[|b| - 1].entry);
  }

  // The comparison ends here: a chain is empty, or the last inputs differ.
  lemma {:induction false} CompareEnd(sha: Sha, a: seq<Link>, b: seq<Link>)
    requires Chain(sha, a) && Chain(sha, b) && Head(a) == Head(b)
    requires a == [] || b == [] || Input(a) != Input(b)
    ensures Convincing(sha, a, b, Compare(a, b))
  {
  }

  lemma {:induction false} ConvincingGrows(sha: Sha, a: seq<Link>, b: seq<Link>, e: Evidence)
    requires a != [] && b != [] && a[|a| - 1] == b[|b| - 1]
    requires Convincing(sha, a[..|a| - 1], b[..|b| - 1], e)
    ensures Convincing(sha, a, b, e)
  {
    assert a == a[..|a| - 1] + [a[|a| - 1]] && b == b[..|b| - 1] + [b[|b| - 1]];
  }

  // Two chains with the same head hold the same links, or comparing them yields two different
  // inputs, one hashed in each, with the same hash, or an input of theirs that hashes to GENESIS.
  lemma {:induction false} CompareSound(sha: Sha, a: seq<Link>, b: seq<Link>)
    requires Chain(sha, a) && Chain(sha, b) && Head(a) == Head(b)
    ensures Convincing(sha, a, b, Compare(a, b))
    decreases |a|
  {
    if a == [] || b == [] || Input(a) != Input(b) {
      CompareEnd(sha, a, b);
    } else {
      CompareLast(sha, a, b);
      CompareSound(sha, a[..|a| - 1], b[..|b| - 1]);
      ConvincingGrows(sha, a, b, Compare(a[..|a| - 1], b[..|b| - 1]));
    }
  }

  lemma {:induction false} ChainPrefix(sha: Sha, links: seq<Link>, n: nat)
    requires Chain(sha, links) && n <= |links|
    ensures Chain(sha, links[..n])
  {
    if n < |links| {
      ChainPrefix(sha, links[..|links| - 1], n);
      assert links[..|links| - 1][..n] == links[..n];
    } else {
      assert links[..n] == links;
    }
  }

  function EntriesIn(text: string): seq<Link> {
    LinksOf(Lines(text))
  }

  lemma {:induction false} VerifiedChain(sha: Sha, text: string)
    requires var v := VerifyFile(sha, Some(text), None); v.Verdict? && v.ok
    ensures Chain(sha, EntriesIn(text)) && Head(EntriesIn(text)) == VerifyFile(sha, Some(text), None).head
  {
    Verifies(sha, text);
    VerifiedIsChain(sha, Lines(text));
  }

  // Tamper evidence as a reduction: two logs that verify with the same head hold the same entries
  // in the same order, or comparing them from the end names two texts, one hashed in each, that
  // collide, or one that hashes to GENESIS.
  lemma {:induction false} TamperEvidence(sha: Sha, a: string, b: string)
    requires var v, w := VerifyFile(sha, Some(a), None), VerifyFile(sha, Some(b), None);
             v.Verdict? && v.ok && w.Verdict? && w.ok && v.head == w.head
    ensures Convincing(sha, EntriesIn(a), EntriesIn(b), Compare(EntriesIn(a), EntriesIn(b)))
  {
    VerifiedChain(sha, a);
    VerifiedChain(sha, b);
    CompareSound(sha, EntriesIn(a), EntriesIn(b));
  }

  lemma {:induction false} LaterLinksDiffer(sha: Sha, a: seq<Link>, b: seq<Link>, i: nat, j: nat)
    requires Chain(sha, a) && Chain(sha, b) && i <= j < |a| && j < |b|
    requires a[i].entry != b[i].entry && a[j].hash == b[j].hash
    ensures var x, y := a[..j + 1], b[..j + 1]; !Compare(x, y).Same? && Convincing(sha, x, y, Compare(x, y))
  {
    var x, y := a[..j + 1], b[..j + 1];
    ChainPrefix(sha, a, j + 1);
    ChainPrefix(sha, b, j + 1);
    CompareSound(sha, x, y);
    assert x[i] != y[i];
  }

  // Two verifying logs that differ in an entry have different hashes from there on; an equal hash
  // at any later entry again names a collision.
  lemma {:induction false} LaterHashesDiffer(sha: Sha, a: string, b: string, i: nat, j: nat)
    requires var v, w := VerifyFile(sha, Some(a), None), VerifyFile(sha, Some(b), None);
             v.Verdict? && v.ok && w.Verdict? && w.ok
    requires i <= j < |EntriesIn(a)| && j < |EntriesIn(b)|
    requires EntriesIn(a)[i].entry != EntriesIn(b)[i].entry && EntriesIn(a)[j].hash == EntriesIn(b)[j].hash
    ensures var x, y := EntriesIn(a)[..j + 1], EntriesIn(b)[..j + 1];
            !Compare(x, y).Same? && Convincing(sha, x, y, Compare(x, y))
  {
    VerifiedChain(sha, a);
    VerifiedChain(sha, b);
    LaterLinksDiffer(sha, EntriesIn(a), EntriesIn(b), i, j);
  }

  lemma {:induction false} LowerHex(s: string)
    requires forall c <- s :: Audit.Wire.IsHex(c)
    ensures Lower(s) == s
  {
    if s != "" {
      assert s[0] in s;
      LowerHex(s[1..]);
    }
  }

  lemma {:induction false} FullAnchor(anchor: string, head: string)
    requires IsDigest(anchor) && IsDigest(head) && Lower(anchor) <= head
    ensures anchor == head
  {
    LowerHex(anchor);
    assert anchor == head[..64];
  }

  lemma {:induction false} VerifiedHead(sha: Sha, text: string)
    requires var v := VerifyFile(sha, Some(text), None); v.Verdict? && v.ok
    ensures IsDigest(VerifyFile(sha, Some(text), None).head)
  {
    VerifiedIsChain(sha, Lines(text));
    HeadIsDigest(sha, LinksOf(Lines(text)));
  }

  lemma {:induction false} HeadIsDigest(sha: Sha, links: seq<Link>)
    requires Chain(sha, links)
    ensures IsDigest(Head(links))
  {
  }

  // Passing a full anchor means having that head.
  lemma {:induction false} AnchoredHead(sha: Sha, text: string, anchor: string)
    requires IsDigest(anchor)
    requires var w := VerifyFile(sha, Some(text), Some(anchor)); w.Verdict? && w.ok
    ensures VerifyFile(sha, Some(text), None) == VerifyFile(sha, Some(text), Some(anchor))
    ensures VerifyFile(sha, Some(text), None).head == anchor
  {
    VerifiedHead(sha, text);
    FullAnchor(anchor, VerifyFile(sha, Some(text), None).head);
  }

  // Anchoring: a log that verifies against the full head of another one holds the same entries, or
  // the two name a collision. In particular a truncated log does not verify against the old head.
  lemma {:induction false} AnchorPins(sha: Sha, a: string, b: string)
    requires var v := VerifyFile(sha, Some(a), None); v.Verdict? && v.ok
    requires var w := VerifyFile(sha, Some(b), Some(VerifyFile(sha, Some(a), None).head)); w.Verdict? && w.ok
    ensures Convincing(sha, EntriesIn(a), EntriesIn(b), Compare(EntriesIn(a), EntriesIn(b)))
  {
    VerifiedHead(sha, a);
    AnchoredHead(sha, b, VerifyFile(sha, Some(a), None).head);
    TamperEvidence(sha, a, b);
  }

  // ---- what an entry is written as -------------------------------------------------------------

  lemma {:induction false} KeyOrder()
    ensures Less("data", "event") && Less("event", "hash") && Less("event", "prev") && Less("event", "seq")
    ensures Less("data", "prev") && Less("data", "hash")
    ensures Less("hash", "prev") && Less("prev", "seq") && Less("seq", "ts")
  {
  }

  lemma {:induction false} DictFive(a: Field, b: Field, c: Field, d: Field, e: Field)
    ensures Dict([a, b, c, d, e]) == Insert(Insert(Insert(Insert([a], b), c), d), e)
  {
    var all := [a, b, c, d, e];
    assert all[..5] == all && all[..4][..3] == all[..3] && all[..3][..2] == all[..2];
    assert all[..2][..1] == [a] && [a][..0] == [];
    assert Dict([a]) == [a];
    assert Dict(all[..2]) == Insert([a], b);
    assert Dict(all[..3]) == Insert(Dict(all[..2]), c);
    assert Dict(all[..4]) == Insert(Dict(all[..3]), d);
  }

  lemma {:induction false} InsertTwo(a: Field, b: Field)
    requires Less(a.key, b.key)
    ensures Insert([a], b) == [a, b]
  {
    InsertBetween([a], [], b);
    assert [a] + [] == [a] && [a] + [b] + [] == [a, b];
  }

  lemma {:induction false} InsertFront(b: seq<Field>, f: Field)
    requires b != [] && Less(f.key, b[0].key)
    ensures Insert(b, f) == [f] + b
  {
    LessTotal(f.key, b[0].key);
  }

  lemma {:induction false} InsertThird(a: Field, b: Field, tail: seq<Field>, f: Field)
    requires Less(a.key, f.key) && Less(b.key, f.key) && tail != [] && Less(f.key, tail[0].key)
    ensures Insert([a] + ([b] + tail), f) == [a, b, f] + tail
  {
    InsertBetween([a, b], tail, f);
    assert [a, b] + tail == [a] + ([b] + tail) && [a, b] + [f] + tail == [a, b, f] + tail;
  }

  // Five fields that come in the order 4th, 5th, 3rd, 1st, 2nd of their keys.
  lemma {:induction false} FiveInOrder(s: Field, t: Field, v: Field, d: Field, p: Field)
    requires Less(s.key, t.key) && Less(v.key, s.key) && Less(d.key, v.key)
    requires Less(d.key, p.key) && Less(v.key, p.key) && Less(p.key, s.key)
    ensures Dict([s, t, v, d, p]) == [d, v, p, s, t]
  {
    DictFive(s, t, v, d, p);
    InsertTwo(s, t);
    var tail := [s, t];
    InsertFront(tail, v);
    InsertFront([v] + tail, d);
    InsertThird(d, v, tail, p);
    assert [d, v, p] + tail == [d, v, p, s, t];
  }

  lemma {:induction false} SixthInOrder(e: seq<Field>, h: Field)
    requires |e| == 5 && Less(e[0].key, h.key) && Less(e[1].key, h.key) && Less(h.key, e[2].key)
    ensures Insert(e, h) == [e[0], e[1], h, e[2], e[3], e[4]]
  {
    InsertBetween(e[..2], e[2..], h);
    assert e[..2] + e[2..] == e && e[..2] + [h] + e[2..] == [e[0], e[1], h, e[2], e[3], e[4]];
  }

  lemma {:induction false} EntryFields(n: nat, ts: string, event: string, data: Json, prev: string, hash: Json)
    ensures var e := [Field("data", data), Field("event", Str(event)), Field("prev", Str(prev)),
                      Field("seq", Int(n)), Field("ts", Str(ts))];
            && Entry(n, ts, event, data, prev) == e
            && Insert(e, Field("hash", hash)) == [e[0], e[1], Field("hash", hash), e[2], e[3], e[4]]
  {
    var s, t, v := Field("seq", Int(n)), Field("ts", Str(ts)), Field("event", Str(event));
    var d, p := Field("data", data), Field("prev", Str(prev));
    KeyOrder();
    FiveInOrder(s, t, v, d, p);
    SixthInOrder([d, v, p, s, t], Field("hash", hash));
  }

  lemma {:induction false} LookUps(e: seq<Field>, hash: Json)
    requires |e| == 5
    requires e[0].key == "data" && e[1].key == "event" && e[2].key == "prev" && e[3].key == "seq" && e[4].key == "ts"
    ensures var full := [e[0], e[1], Field("hash", hash), e[2], e[3], e[4]];
            && Get(full, "hash") == Some(hash) && Remove(full, "hash") == e
            && Get(e, "prev") == Some(e[2].value) && Get(e, "seq") == Some(e[3].value)
  {
    var full := [e[0], e[1], Field("hash", hash), e[2], e[3], e[4]];
    var f1, f2 := full[1..], full[1..][1..];
    assert Get(f2, "hash") == Some(hash) && Remove(f2, "hash") == [e[2], e[3], e[4]];
    assert Get(f1, "hash") == Get(f2, "hash") && Remove(f1, "hash") == [e[1]] + Remove(f2, "hash");
    assert Remove(full, "hash") == [e[0]] + Remove(f1, "hash");
    var e1, e2, e3 := e[1..], e[1..][1..], e[1..][1..][1..];
    assert Get(e2, "prev") == Some(e[2].value) && Get(e3, "seq") == Some(e[3].value);
    assert Get(e2, "seq") == Get(e3, "seq") && Get(e1, "seq") == Get(e2, "seq");
    assert Get(e1, "prev") == Get(e2, "prev");
  }

  lemma {:induction false} HashedWellFormed(n: nat, ts: string, event: string, data: Json, prev: string, hash: Json)
    requires WellFormed(data) && WellFormed(hash)
    ensures WellFormed(Obj(Insert(Entry(n, ts, event, data, prev), Field("hash", hash))))
  {
    var pairs := [Field("seq", Int(n)), Field("ts", Str(ts)), Field("event", Str(event)),
                  Field("data", data), Field("prev", Str(prev))];
    DictWellFormed(pairs);
    InsertSorted(Dict(pairs), Field("hash", hash));
  }

  lemma {:induction false} LineParses(sha: Sha, n: nat, ts: string, event: string, data: Json, prev: string)
    requires WellFormed(data)
    ensures var entry := Entry(n, ts, event, data, prev);
            var line := EntryLine(sha, entry, prev);
            && '\n' !in line && line != ""
            && Parse(line).Some? && Parse(line).value.Obj?
            && Get(Parse(line).value.fields, "hash") == Some(Str(sha(HashInput(prev, entry))))
            && Remove(Parse(line).value.fields, "hash") == entry
            && Get(entry, "seq") == Some(Int(n)) && Get(entry, "prev") == Some(Str(prev))
  {
    var entry := Entry(n, ts, event, data, prev);
    var hash := Str(sha(HashInput(prev, entry)));
    var full := Insert(entry, Field("hash", hash));
    HashedWellFormed(n, ts, event, data, prev, hash);
    JsonLaws.CanonPrintable(Obj(full));
    JsonLaws.CanonParses(Obj(full));
    EntryFields(n, ts, event, data, prev, hash);
    LookUps(entry, hash);
  }

  lemma {:induction false} LineAlone(line: string)
    requires '\n' !in line
    ensures Lines(line + "\n") == [line]
  {
    LinesOne(line, "");
    assert line + "\n" + "" == line + "\n";
  }

  lemma {:induction false} LinesPlus(text: string, line: string)
    requires Ended(text) && '\n' !in line
    ensures Ended(text + (line + "\n"))
    ensures Lines(text + (line + "\n")) == Lines(text) + [line]
  {
    LinesAppend(text, line + "\n");
    LineAlone(line);
  }

  // One more line at the end of a complete text.
  lemma {:induction false} LineChecks(sha: Sha, text: string, line: string)
    requires Ended(text) && '\n' !in line
    ensures CheckLines(sha, START, Lines(text + (line + "\n")))
            == CheckLine(sha, CheckLines(sha, START, Lines(text)), line)
  {
    LinesPlus(text, line);
    SnocChecks(sha, Lines(text), line);
  }

  lemma {:induction false} SnocChecks(sha: Sha, lines: seq<string>, line: string)
    ensures CheckLines(sha, START, lines + [line]) == CheckLine(sha, CheckLines(sha, START, lines), line)
  {
    CheckAppend(sha, START, lines, [line]);
    OneLine(sha, CheckLines(sha, START, lines), line);
  }

  lemma {:induction false} OneLine(sha: Sha, p: Progress, line: string)
    ensures CheckLines(sha, p, [line]) == CheckLine(sha, p, line)
  {
    assert [line][1..] == [];
  }

  // What verify_file makes of an entry that was written with the given number and head.
  function EntryProgress(sha: Sha, p: Progress, n: nat, entry: seq<Field>, prev: string): Progress
    requires p.Going?
  {
    if n != p.n + 1 then Bad(p.n + 1, p.prev, p.line + 1, SequenceGap)
    else if prev != p.prev then Bad(p.n + 1, p.prev, p.line + 1, BrokenLink)
    else Going(n, sha(HashInput(prev, entry)), p.line + 1)
  }

  lemma {:induction false} ParsedChecks(sha: Sha, p: Progress, n: nat, entry: seq<Field>, prev: string, line: string)
    requires p.Going? && line != "" && Parse(line).Some? && Parse(line).value.Obj?
    requires Get(Parse(line).value.fields, "hash") == Some(Str(sha(HashInput(prev, entry))))
    requires Remove(Parse(line).value.fields, "hash") == entry
    requires Get(entry, "seq") == Some(Int(n)) && Get(entry, "prev") == Some(Str(prev))
    ensures CheckLine(sha, p, line) == EntryProgress(sha, p, n, entry, prev)
  {
  }

  lemma {:induction false} EntryChecks(sha: Sha, p: Progress, n: nat, ts: string, event: string, data: Json,
                                       prev: string)
    requires WellFormed(data) && p.Going?
    ensures var entry := Entry(n, ts, event, data, prev);
            CheckLine(sha, p, EntryLine(sha, entry, prev)) == EntryProgress(sha, p, n, entry, prev)
  {
    var entry := Entry(n, ts, event, data, prev);
    LineParses(sha, n, ts, event, data, prev);
    ParsedChecks(sha, p, n, entry, prev, EntryLine(sha, entry, prev));
  }

  lemma {:induction false} AppendShape(sha: Sha, log: Log, ts: string, event: string, data: Json)
    returns (line: string, n: nat, entry: seq<Field>)
    ensures n == log.seq_ + 1 && entry == Entry(n, ts, event, data, log.head) && line == EntryLine(sha, entry, log.head)
    ensures Append(sha, log, ts, event, data)
            == Log(Some(log.file.GetOr("") + (line + "\n")), n, sha(HashInput(log.head, entry)))
  {
    n := log.seq_ + 1;
    entry := Entry(n, ts, event, data, log.head);
    line := EntryLine(sha, entry, log.head);
  }

  lemma {:induction false} EntryOneLine(sha: Sha, n: nat, ts: string, event: string, data: Json, prev: string)
    requires WellFormed(data)
    ensures var line := EntryLine(sha, Entry(n, ts, event, data, prev), prev); '\n' !in line && line != ""
  {
    LineParses(sha, n, ts, event, data, prev);
  }
}
