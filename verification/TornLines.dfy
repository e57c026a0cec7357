/** A log whose last line has no newline, and the entry that AuditLog appends to it.

    AuditLog writes behind whatever the file ends with, so the torn line and the entry become one
    line. What follows decides when the verdict on the log survives that. */
module TornLines {
  import opened Prelude
  import opened Json
  import opened Audit
  import opened AuditLaws
  import opened TornJson

  // ---- the verdict after the next entry ------------------------------------------------------

  lemma {:induction false} LastLine(t: string)
    requires '\n' !in t
    ensures Lines(t) == if t == "" then [] else [t]
  {
  }

  lemma {:induction false} TornChecks(sha: Sha, text: string)
    requires Torn(text) != ""
    ensures CheckLines(sha, START, Lines(text))
            == CheckLine(sha, CheckLines(sha, START, Lines(Whole(text))), Torn(text))
  {
    var c, t := Whole(text), Torn(text);
    Splits(text);
    LinesAppend(c, t);
    LastLine(t);
    SnocChecks(sha, Lines(c), t);
  }

  lemma {:induction false} AppendedChecks(sha: Sha, text: string, line: string)
    requires '\n' !in line
    ensures CheckLines(sha, START, Lines(text + (line + "\n")))
            == CheckLine(sha, CheckLines(sha, START, Lines(Whole(text))), Torn(text) + line)
  {
    var c, t := Whole(text), Torn(text);
    Splits(text);
    assert text + (line + "\n") == c + (t + line + "\n");
    LineChecks(sha, c, t + line);
  }

  lemma {:induction false} StartsWithData(fields: seq<Field>)
    requires fields != [] && fields[0].key == "data"
    ensures var s := Canon(Obj(fields)); |s| > 3 && s[0] == '{' && s[1] == '"' && s[2] == 'd'
  {
    assert Escape("data") == "d" + Escape("data"[1..]);
    var q := Quote("data");
    assert q[0] == '"' && q[1] == 'd' && |q| >= 3;
    var f := CanonFields(fields);
    assert f[0] == q[0] && f[1] == q[1] && |f| >= 3;
  }

  lemma {:induction false} AppendedIsEntry(sha: Sha, n: nat, ts: string, event: string, data: Json, prev: string)
    requires WellFormed(data)
    ensures var line := EntryLine(sha, Entry(n, ts, event, data, prev), prev); EntryText(line) && '\n' !in line
  {
    var entry := Entry(n, ts, event, data, prev);
    var hash := Str(sha(HashInput(prev, entry)));
    EntryFields(n, ts, event, data, prev, hash);
    StartsWithData(Insert(entry, Field("hash", hash)));
    LineParses(sha, n, ts, event, data, prev);
  }

  // What the entry's line and the torn line before it come to.
  lemma {:induction false} JoinedChecks(sha: Sha, p: Progress, t: string, line: string)
    requires p.Going? && EntryText(line)
    ensures CheckLine(sha, p, t + line)
            == if SkipSpace(t) == "" then CheckLine(sha, p, line) else Bad(p.n, p.prev, p.line + 1, Unparsable)
  {
    JoinedParses(t, line);
  }

  lemma {:induction false} TornFails(sha: Sha, p: Progress, t: string)
    requires p.Going? && t != "" && CheckLine(sha, p, t).Bad?
    ensures var q := CheckLine(sha, p, t);
            && q.prev == p.prev && q.line == p.line + 1 && (q.n == p.n <==> q.problem == Unparsable)
            && (SkipSpace(t) == "" ==> q.problem == Unparsable)
  {
  }

  // The lines that have their newline verify; the torn one does not.
  lemma {:induction false} TornVerdict(sha: Sha, p: Progress, t: string, line: string, log: Log, ts: string,
                                       event: string, data: Json)
    requires WellFormed(data) && p.Going? && t != "" && CheckLine(sha, p, t).Bad?
    requires log.seq_ == CheckLine(sha, p, t).n && log.head == p.prev
    requires line == EntryLine(sha, Entry(log.seq_ + 1, ts, event, data, log.head), log.head)
    ensures CheckLine(sha, p, t + line) == CheckLine(sha, p, t)
            <==> CheckLine(sha, p, t).problem == Unparsable && SkipSpace(t) != ""
  {
    AppendedIsEntry(sha, log.seq_ + 1, ts, event, data, log.head);
    JoinedChecks(sha, p, t, line);
    TornFails(sha, p, t);
    EntryChecks(sha, p, log.seq_ + 1, ts, event, data, log.head);
  }

  function Checks(sha: Sha, text: string): Progress {
    CheckLines(sha, START, Lines(text))
  }

  lemma {:induction false} SameVerdict(sha: Sha, a: string, b: string)
    requires Checks(sha, a).Bad?
    ensures VerifyFile(sha, Some(b), None) == VerifyFile(sha, Some(a), None) <==> Checks(sha, b) == Checks(sha, a)
  {
  }

  lemma {:induction false} AppendKeepsChecks(sha: Sha, text: string, log: Log, ts: string, event: string, data: Json)
    requires WellFormed(data) && Checks(sha, text).Bad?
    requires log.seq_ == Checks(sha, text).n && log.head == Checks(sha, text).prev
    ensures var line := EntryLine(sha, Entry(log.seq_ + 1, ts, event, data, log.head), log.head);
            Checks(sha, text + (line + "\n")) == Checks(sha, text) <==>
              || (Torn(text) == "" || Checks(sha, Whole(text)) == Checks(sha, text))
              || (Checks(sha, text).problem == Unparsable && SkipSpace(Torn(text)) != "")
  {
    var c, t := Whole(text), Torn(text);
    var p := Checks(sha, c);
    var line := EntryLine(sha, Entry(log.seq_ + 1, ts, event, data, log.head), log.head);
    AppendedIsEntry(sha, log.seq_ + 1, ts, event, data, log.head);
    AppendedChecks(sha, text, line);
    if t == "" {
      assert c == text;
    } else {
      TornChecks(sha, text);
      if p.Going? {
        TornFails(sha, p, t);
        TornVerdict(sha, p, t, line, log, ts, event, data);
      }
    }
  }

  // An entry that AuditLog appends to a log that does not verify leaves the verdict as it was - same
  // error, count and head - exactly when the fault is in a line that has its newline, or when the
  // torn line is unparsable and not blank. A blank torn line heals, and a torn line that was an
  // object becomes an unparsable one.
  lemma {:induction false} AppendKeepsFailure(sha: Sha, text: string, ts: string, event: string, data: Json)
    requires WellFormed(data)
    requires var v := VerifyFile(sha, Some(text), None); v.Verdict? && !v.ok
    ensures var v := VerifyFile(sha, Some(text), None);
            var w := VerifyFile(sha, Append(sha, Opened(sha, Some(text)), ts, event, data).file, None);
            w == v <==>
              || (Torn(text) == "" || VerifyFile(sha, Some(Whole(text)), None) == v)
              || (v.error.value.problem == Unparsable && SkipSpace(Torn(text)) != "")
  {
    var log := Opened(sha, Some(text));
    var line, n, entry := AppendShape(sha, log, ts, event, data);
    AppendKeepsChecks(sha, text, log, ts, event, data);
    SameVerdict(sha, text, text + (line + "\n"));
    SameVerdict(sha, text, Whole(text));
  }

  // So a fault in a torn line is final for no continuation at all where the line is blank or was an
  // object: some text behind it changes the verdict.
  lemma {:induction false} TornFailureChanges(sha: Sha, text: string)
    requires var v := VerifyFile(sha, Some(text), None); v.Verdict? && !v.ok
    requires Torn(text) != "" && VerifyFile(sha, Some(Whole(text)), None) != VerifyFile(sha, Some(text), None)
    requires VerifyFile(sha, Some(text), None).error.value.problem != Unparsable || SkipSpace(Torn(text)) == ""
    ensures exists more: string :: VerifyFile(sha, Some(text + more), None) != VerifyFile(sha, Some(text), None)
  {
    AppendKeepsFailure(sha, text, "", "", Null);
    var line, n, entry := AppendShape(sha, Opened(sha, Some(text)), "", "", Null);
    assert VerifyFile(sha, Some(text + (line + "\n")), None) != VerifyFile(sha, Some(text), None);
  }

  lemma {:induction false} BlankLineFails(sha: Sha)
    ensures Whole(" ") == "" && Torn(" ") == " " && Checks(sha, "") == START
    ensures VerifyFile(sha, Some(" "), None) == Verdict(false, 0, GENESIS, Some(AtLine(1, Unparsable)))
  {
    assert " "[..0] == "" && " "[1..] == "" && Torn("") == "";
    LastLine("");
    TornChecks(sha, " ");
    assert SkipSpace(" ") == "";
  }

  // The entry that is appended to the blank line checks as the first one of an empty log.
  lemma {:induction false} BlankEntryChecks(sha: Sha, ts: string, event: string, data: Json)
    requires WellFormed(data)
    ensures var entry := Entry(1, ts, event, data, GENESIS);
            CheckLine(sha, START, " " + EntryLine(sha, entry, GENESIS)) == Going(1, sha(HashInput(GENESIS, entry)), 1)
  {
    var entry := Entry(1, ts, event, data, GENESIS);
    AppendedIsEntry(sha, 1, ts, event, data, GENESIS);
    assert SkipSpace(" ") == "" by {
      assert " "[1..] == "";
    }
    JoinedChecks(sha, START, " ", EntryLine(sha, entry, GENESIS));
    EntryChecks(sha, START, 1, ts, event, data, GENESIS);
  }

  lemma {:induction false} BlankFileChecks(sha: Sha, ts: string, event: string, data: Json)
    requires WellFormed(data)
    ensures var entry := Entry(1, ts, event, data, GENESIS);
            Checks(sha, " " + (EntryLine(sha, entry, GENESIS) + "\n")) == Going(1, sha(HashInput(GENESIS, entry)), 1)
  {
    var line := EntryLine(sha, Entry(1, ts, event, data, GENESIS), GENESIS);
    BlankLineFails(sha);
    AppendedIsEntry(sha, 1, ts, event, data, GENESIS);
    AppendedChecks(sha, " ", line);
    BlankEntryChecks(sha, ts, event, data);
  }

  // A blank torn line does heal: this log fails, and verifies after the next entry.
  lemma {:induction false} BlankLineHeals(sha: Sha, ts: string, event: string, data: Json)
    requires WellFormed(data)
    ensures var v := VerifyFile(sha, Some(" "), None);
            var after := Append(sha, Opened(sha, Some(" ")), ts, event, data);
            && v == Verdict(false, 0, GENESIS, Some(AtLine(1, Unparsable)))
            && VerifyFile(sha, after.file, None) == Verdict(true, 1, after.head, None)
  {
    BlankLineFails(sha);
    var line, n, entry := AppendShape(sha, Log(Some(" "), 0, GENESIS), ts, event, data);
    BlankFileChecks(sha, ts, event, data);
  }
}
