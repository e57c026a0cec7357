/** Exactly what verify_file says of a log, told from its lines and the chain of entries before each. */
module AuditVerdicts {
  import opened Prelude
  import opened Json
  import opened Audit
  import opened AuditLaws
  import Wire

  datatype Complaint = Fine | Wrong(problem: Problem) | Escaping

  // What is wrong with a line that comes behind the given links.
  function ComplaintOf(sha: Sha, before: seq<Link>, line: string): Complaint {
    if line == "" then Fine
    else match Parse(line)
    case None => Wrong(Unparsable)
    case Some(v) =>
      if !v.Obj? then Escaping
      else if Get(v.fields, "hash").None? then Wrong(Unparsable)
      else EntryComplaint(sha, before, Remove(v.fields, "hash"), Get(v.fields, "hash").value)
  }

  // The entry must be numbered behind the links, name the hash of the last one, and be hashed with it.
  function EntryComplaint(sha: Sha, before: seq<Link>, entry: seq<Field>, claimed: Json): Complaint {
    var number := Get(entry, "seq");
    if number != Some(Int(|before| + 1)) && !(before == [] && number == Some(Bool(true))) then Wrong(SequenceGap)
    else if Get(entry, "prev") != Some(Str(Head(before))) then Wrong(BrokenLink)
    else if claimed != Str(sha(Head(before) + Canon(Obj(entry)))) then Wrong(ContentModified)
    else Fine
  }

  // How the loop stands behind a line that is complained of.
  function Complained(before: seq<Link>, line: nat, c: Complaint): Progress
    requires !c.Fine?
  {
    if c.Escaping? then Raised
    else Bad(if c.problem.Unparsable? then |before| else |before| + 1, Head(before), line, c.problem)
  }

  lemma {:induction false} EntryComplains(sha: Sha, p: Progress, before: seq<Link>, entry: seq<Field>, claimed: Json)
    requires p.Going? && p.n == |before| && p.prev == Head(before)
    ensures var c, q := EntryComplaint(sha, before, entry, claimed), CheckEntry(sha, p, entry, claimed);
            (c.Fine? <==> q.Going?) && (!c.Fine? ==> q == Complained(before, p.line + 1, c))
  {
  }

  lemma {:induction false} LineComplains(sha: Sha, p: Progress, before: seq<Link>, line: string)
    requires p.Going? && p.n == |before| && p.prev == Head(before)
    ensures var c, q := ComplaintOf(sha, before, line), CheckLine(sha, p, line);
            (c.Fine? <==> q.Going?) && (!c.Fine? ==> q == Complained(before, p.line + 1, c))
  {
    if line != "" && Parse(line).Some? && Parse(line).value.Obj? && Get(Parse(line).value.fields, "hash").Some? {
      var fields := Parse(line).value.fields;
      EntryComplains(sha, p, before, Remove(fields, "hash"), Get(fields, "hash").value);
    }
  }

  // One more line: the loop goes on, or has its verdict.
  lemma {:induction false} NextLine(sha: Sha, lines: seq<string>, n: nat)
    requires n < |lines| && CheckLines(sha, START, lines[..n]).Going?
    ensures var c := ComplaintOf(sha, LinksOf(lines[..n]), lines[n]);
            && (c.Fine? ==> CheckLines(sha, START, lines[..n + 1]).Going?)
            && (!c.Fine? ==> CheckLines(sha, START, lines) == Complained(LinksOf(lines[..n]), n + 1, c))
  {
    VerifiedIsChain(sha, lines[..n]);
    LineComplains(sha, CheckLines(sha, START, lines[..n]), LinksOf(lines[..n]), lines[n]);
    Advance(sha, lines, n);
  }

  lemma {:induction false} Advance(sha: Sha, lines: seq<string>, n: nat)
    requires n < |lines|
    ensures var q := CheckLine(sha, CheckLines(sha, START, lines[..n]), lines[n]);
            CheckLines(sha, START, lines[..n + 1]) == q && (!q.Going? ==> CheckLines(sha, START, lines) == q)
  {
    assert lines[..n + 1] == lines[..n] + [lines[n]];
    SnocChecks(sha, lines[..n], lines[n]);
    CheckAppend(sha, START, lines[..n + 1], lines[n + 1..]);
    assert lines == lines[..n + 1] + lines[n + 1..];
    VerdictStays(sha, CheckLines(sha, START, lines[..n + 1]), lines[n + 1..]);
  }

  ghost predicate FineAt(sha: Sha, lines: seq<string>, i: nat)
    requires i < |lines|
  {
    ComplaintOf(sha, LinksOf(lines[..i]), lines[i]).Fine?
  }

  // The first line that is complained of.
  lemma {:induction false} FirstWrong(bad: nat -> bool, n: nat, m: nat) returns (k: nat)
    requires n <= m
    ensures n <= k <= m && (forall i: nat | n <= i < k :: !bad(i)) && (k < m ==> bad(k))
    decreases m - n
  {
    k := n;
    if n < m && !bad(n) {
      k := FirstWrong(bad, n + 1, m);
    }
  }

  lemma {:induction false} GoesOn(sha: Sha, lines: seq<string>, k: nat)
    requires k <= |lines| && forall i: nat | i < k :: FineAt(sha, lines, i)
    ensures CheckLines(sha, START, lines[..k]).Going?
  {
    if k > 0 {
      GoesOn(sha, lines, k - 1);
      assert FineAt(sha, lines, k - 1);
      NextLine(sha, lines, k - 1);
    }
  }

  lemma {:induction false} FirstComplaint(sha: Sha, lines: seq<string>) returns (k: nat)
    ensures k <= |lines| && CheckLines(sha, START, lines[..k]).Going? && forall i: nat | i < k :: FineAt(sha, lines, i)
    ensures k < |lines| ==>
              var before := LinksOf(lines[..k]);
              var c := ComplaintOf(sha, before, lines[k]);
              !c.Fine? && CheckLines(sha, START, lines) == Complained(before, k + 1, c)
  {
    var bad := (i: nat) => i < |lines| && !FineAt(sha, lines, i);
    k := FirstWrong(bad, 0, |lines|);
    forall i: nat | i < k
      ensures FineAt(sha, lines, i)
    {
      assert !bad(i);
    }
    GoesOn(sha, lines, k);
    if k < |lines| {
      NextLine(sha, lines, k);
    }
  }

  // Exactly what verify_file says of the text of a log without an anchor. It holds as many entries as
  // lines that are not empty, and its head is the hash of the last one, if there is nothing to complain
  // of in any line. Otherwise the first line that gives cause is reported with the entries before it,
  // and counted as one itself unless it is unparsable; or verify_file raises there.
  lemma {:induction false} VerifyExactly(sha: Sha, text: string) returns (k: nat)
    ensures var lines := Lines(text);
            && k <= |lines| && (forall i: nat | i < k :: FineAt(sha, lines, i))
            && var before := LinksOf(lines[..k]);
               VerifyFile(sha, Some(text), None) ==
               if k == |lines| then Verdict(true, |before|, Head(before), None)
               else
                 match ComplaintOf(sha, before, lines[k])
                 case Fine => Escapes
                 case Escaping => Escapes
                 case Wrong(problem) =>
                   Verdict(false, if problem.Unparsable? then |before| else |before| + 1, Head(before),
                           Some(AtLine(k + 1, problem)))
    ensures k < |Lines(text)| ==> !FineAt(sha, Lines(text), k)
  {
    var lines := Lines(text);
    k := FirstComplaint(sha, lines);
    if k == |lines| {
      assert lines[..k] == lines;
      VerifiedIsChain(sha, lines);
    }
  }

  // ---- anchors -------------------------------------------------------------------------------

  // The same hexadecimal digit, in either case.
  predicate SameDigit(a: char, h: char) {
    a == h || ('A' <= a <= 'F' && 'a' <= h <= 'f' && a as int - 'A' as int == h as int - 'a' as int)
  }

  // The anchor is the beginning of the head, as far as it goes.
  predicate Begins(anchor: string, head: string) {
    |anchor| <= |head| && forall i | 0 <= i < |anchor| :: SameDigit(anchor[i], head[i])
  }

  lemma {:induction false} LowerAt(s: string, i: nat)
    requires i < |s|
    ensures |Lower(s)| == |s|
    ensures Lower(s)[i] == if 'A' <= s[i] <= 'Z' then (s[i] as int + 32) as char else s[i]
  {
    if i > 0 {
      LowerAt(s[1..], i - 1);
    } else if |s| > 1 {
      LowerAt(s[1..], 0);
    }
  }

  lemma {:induction false} LowerLength(s: string)
    ensures |Lower(s)| == |s|
  {
    if s != "" {
      LowerLength(s[1..]);
    }
  }

  lemma {:induction false} DigitExactly(a: char, h: char)
    requires Wire.IsHex(h)
    ensures SameDigit(a, h) <==> h == if 'A' <= a <= 'Z' then (a as int + 32) as char else a
  {
  }

  lemma {:induction false} BeginsExactly(anchor: string, head: string)
    requires IsDigest(head)
    ensures Begins(anchor, head) <==> Lower(anchor) <= head
  {
    LowerLength(anchor);
    forall i | 0 <= i < |anchor| && |anchor| <= |head|
      ensures SameDigit(anchor[i], head[i]) <==> Lower(anchor)[i] == head[i]
    {
      LowerAt(anchor, i);
      assert head[i] in head;
      DigitExactly(anchor[i], head[i]);
    }
  }

  // An anchor changes the verdict exactly on a log that verifies without it and whose head does not
  // begin with it: of any length, in either case, and not at all when it is empty.
  lemma {:induction false} AnchorExactly(sha: Sha, text: string, anchor: string)
    ensures var v := VerifyFile(sha, Some(text), None);
            VerifyFile(sha, Some(text), Some(anchor))
            == if v.Verdict? && v.ok && !Begins(anchor, v.head)
               then Verdict(false, v.n, v.head, Some(AnchorMismatch)) else v
  {
    var v := VerifyFile(sha, Some(text), None);
    if v.Verdict? && v.ok {
      VerifiedHead(sha, text);
      BeginsExactly(anchor, v.head);
    }
  }

  // What the digits of an alert pin: a log that verifies against the first k digits of the head of
  // another one has a head with these digits, and if that is the same head, it holds the same entries or
  // names a collision.
  lemma {:induction false} DigitsPin(sha: Sha, a: string, b: string, k: nat)
    requires var v := VerifyFile(sha, Some(a), None); v.Verdict? && v.ok && k <= 64 == |v.head|
    requires var v, w := VerifyFile(sha, Some(a), None), VerifyFile(sha, Some(b), None);
             var x := VerifyFile(sha, Some(b), Some(v.head[..k])); x.Verdict? && x.ok
    ensures var v, w := VerifyFile(sha, Some(a), None), VerifyFile(sha, Some(b), None);
            && w.Verdict? && w.ok && |w.head| == 64 && w.head[..k] == v.head[..k]
            && (w.head == v.head ==> Convincing(sha, EntriesIn(a), EntriesIn(b), Compare(EntriesIn(a), EntriesIn(b))))
  {
    var v, w := VerifyFile(sha, Some(a), None), VerifyFile(sha, Some(b), None);
    AnchorExactly(sha, b, v.head[..k]);
    VerifiedHead(sha, a);
    VerifiedHead(sha, b);
    BeginsExactly(v.head[..k], w.head);
    assert forall c <- v.head[..k] :: c in v.head;
    LowerHex(v.head[..k]);
    if w.head == v.head {
      TamperEvidence(sha, a, b);
    }
  }
}
