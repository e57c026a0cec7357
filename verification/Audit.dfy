/** audit.py: the hash-chained log.

    SHA-256 is a parameter: any function from texts to 64 lower-case hex digits. The file is the
    text it decodes to, or None when it does not exist. */
module Audit {
  import opened Prelude
  import opened Json
  import Text
  import Wire

  const GENESIS := Zeros(64)

  function Zeros(n: nat): (s: string)
    ensures |s| == n && forall c <- s :: c == '0'
  {
    if n == 0 then "" else Zeros(n - 1) + "0"
  }

  predicate IsDigest(s: string) {
    |s| == 64 && forall c <- s :: Wire.IsHex(c)
  }

  type Digest = s: string | IsDigest(s) witness GENESIS

  type Sha = string -> Digest

  // ---- dictionaries --------------------------------------------------------------------------

  // dict.get
  function Get(fields: seq<Field>, key: string): Option<Json> {
    if fields == [] then None
    else if fields[0].key == key then Some(fields[0].value)
    else Get(fields[1..], key)
  }

  // The dict after pop(key).
  function Remove(fields: seq<Field>, key: string): seq<Field> {
    if fields == [] then []
    else if fields[0].key == key then fields[1..]
    else [fields[0]] + Remove(fields[1..], key)
  }

  // ---- verify_file ---------------------------------------------------------------------------

  // Iterating over a text file: a last line without a newline counts, an empty one does not.
  function Lines(text: string): seq<string>
    decreases |text|
  {
    var k := Text.IndexOf(text, '\n');
    if text == "" then []
    else if k == |text| then [text]
    else [text[..k]] + Lines(text[k + 1..])
  }

  function HashInput(prev: string, entry: seq<Field>): string {
    prev + Canon(Obj(entry))
  }

  datatype Problem = Unparsable | SequenceGap | BrokenLink | ContentModified

  // Where the loop of verify_file is: n entries accepted or reported, head `prev`, `line` lines read.
  datatype Progress =
    | Going(n: nat, prev: string, line: nat)
    | Bad(n: nat, prev: string, line: nat, problem: Problem)
    | Raised

  // entry.get("seq") != n compares as Python does, where True equals 1.
  predicate SeqIs(v: Option<Json>, n: nat) {
    v == Some(Int(n)) || (v == Some(Bool(true)) && n == 1)
  }

  // One line: a line that is JSON but no object raises out of verify_file.
  function CheckLine(sha: Sha, p: Progress, line: string): Progress {
    if !p.Going? then p
    else if line == "" then Going(p.n, p.prev, p.line + 1)
    else match Parse(line)
    case None => Bad(p.n, p.prev, p.line + 1, Unparsable)
    case Some(v) =>
      if !v.Obj? then Raised
      else if Get(v.fields, "hash").None? then Bad(p.n, p.prev, p.line + 1, Unparsable)
      else CheckEntry(sha, p, Remove(v.fields, "hash"), Get(v.fields, "hash").value)
  }

  function CheckEntry(sha: Sha, p: Progress, entry: seq<Field>, claimed: Json): Progress
    requires p.Going?
  {
    var n, line := p.n + 1, p.line + 1;
    if !SeqIs(Get(entry, "seq"), n) then Bad(n, p.prev, line, SequenceGap)
    else if Get(entry, "prev") != Some(Str(p.prev)) then Bad(n, p.prev, line, BrokenLink)
    else if Str(sha(HashInput(p.prev, entry))) != claimed then Bad(n, p.prev, line, ContentModified)
    else Going(n, sha(HashInput(p.prev, entry)), line)
  }

  function CheckLines(sha: Sha, p: Progress, lines: seq<string>): Progress
    decreases |lines|
  {
    if lines == [] then p else CheckLines(sha, CheckLine(sha, p, lines[0]), lines[1..])
  }

  const START := Going(0, GENESIS, 0)

  // str.lower(), as far as it can match hex digits
  function Lower(s: string): string {
    if s == "" then ""
    else [if 'A' <= s[0] <= 'Z' then (s[0] as int + 32) as char else s[0]] + Lower(s[1..])
  }

  datatype Error = AtLine(line: nat, problem: Problem) | AnchorMismatch

  datatype Verdict = Verdict(ok: bool, n: nat, head: string, error: Option<Error>) | Escapes

  function Conclude(p: Progress, anchor: Option<string>): Verdict {
    match p
    case Raised => Escapes
    case Bad(n, prev, line, problem) => Verdict(false, n, prev, Some(AtLine(line, problem)))
    case Going(n, prev, _) =>
      if anchor.Some? && anchor.value != "" && !(Lower(anchor.value) <= prev)
      then Verdict(false, n, prev, Some(AnchorMismatch))
      else Verdict(true, n, prev, None)
  }

  function VerifyFile(sha: Sha, file: Option<string>, anchor: Option<string>): Verdict {
    if file.None? then Verdict(true, 0, GENESIS, None)
    else Conclude(CheckLines(sha, START, Lines(file.value)), anchor)
  }

  // A verdict that has been reached is not changed by further lines.
  lemma {:induction false} VerdictStays(sha: Sha, p: Progress, lines: seq<string>)
    ensures !p.Going? ==> CheckLines(sha, p, lines) == p
    decreases |lines|
  {
    if !p.Going? && lines != [] {
      VerdictStays(sha, p, lines[1..]);
    }
  }

  lemma {:induction false} LineSettles(sha: Sha, p: Progress, lines: seq<string>, i: nat)
    requires i < |lines|
    ensures var q := CheckLine(sha, p, lines[i]);
            && CheckLines(sha, p, lines[i..]) == CheckLines(sha, q, lines[i + 1..])
            && (!q.Going? ==> CheckLines(sha, p, lines[i..]) == q)
  {
    assert lines[i..][0] == lines[i] && lines[i..][1..] == lines[i + 1..];
    VerdictStays(sha, CheckLine(sha, p, lines[i]), lines[i + 1..]);
  }

  // The loop of verify_file.
  method Verify(sha: Sha, file: Option<string>, anchor: Option<string>) returns (r: Verdict)
    ensures r == VerifyFile(sha, file, anchor)
  {
    if file.None? {
      return Verdict(true, 0, GENESIS, None);
    }
    var lines := Lines(file.value);
    ghost var all := CheckLines(sha, START, lines);
    assert VerifyFile(sha, file, anchor) == Conclude(all, anchor);
    var prev: string, n: nat, lineno := GENESIS, 0, 0;
    while lineno < |lines|
      invariant 0 <= lineno <= |lines|
      invariant all == CheckLines(sha, Going(n, prev, lineno), lines[lineno..])
    {
      var line := lines[lineno];
      ghost var next := CheckLine(sha, Going(n, prev, lineno), line);
      LineSettles(sha, Going(n, prev, lineno), lines, lineno);
      assert !next.Going? ==> all == next;
      lineno := lineno + 1;
      if line == "" {
        continue;
      }
      var v := Parse(line);
      if v.Some? && !v.value.Obj? {
        return Escapes;
      }
      if v.None? || Get(v.value.fields, "hash").None? {
        return Verdict(false, n, prev, Some(AtLine(lineno, Unparsable)));
      }
      var entry, claimed := Remove(v.value.fields, "hash"), Get(v.value.fields, "hash").value;
      n := n + 1;
      if !SeqIs(Get(entry, "seq"), n) {
        return Verdict(false, n, prev, Some(AtLine(lineno, SequenceGap)));
      }
      if Get(entry, "prev") != Some(Str(prev)) {
        return Verdict(false, n, prev, Some(AtLine(lineno, BrokenLink)));
      }
      if Str(sha(HashInput(prev, entry))) != claimed {
        return Verdict(false, n, prev, Some(AtLine(lineno, ContentModified)));
      }
      prev := claimed.s;
    }
    return Conclude(Going(n, prev, lineno), anchor);
  }

  // ---- AuditLog ------------------------------------------------------------------------------

  // The open log: what is on disk, and what the object remembers.
  datatype Log = Log(file: Option<string>, seq_: nat, head: string)

  // AuditLog.__init__, when verify_file does not raise.
  function Opened(sha: Sha, file: Option<string>): Log
    requires !VerifyFile(sha, file, None).Escapes?
  {
    var v := VerifyFile(sha, file, None);
    Log(file, v.n, v.head)
  }

  function Entry(n: nat, ts: string, event: string, data: Json, prev: string): seq<Field> {
    Dict([Field("seq", Int(n)), Field("ts", Str(ts)), Field("event", Str(event)),
          Field("data", data), Field("prev", Str(prev))])
  }

  // The line that an entry is written as.
  function EntryLine(sha: Sha, entry: seq<Field>, prev: string): string {
    Canon(Obj(Insert(entry, Field("hash", Str(sha(HashInput(prev, entry)))))))
  }

  // An append that succeeds.
  function Append(sha: Sha, log: Log, ts: string, event: string, data: Json): Log {
    var entry := Entry(log.seq_ + 1, ts, event, data, log.head);
    Log(Some(log.file.GetOr("") + (EntryLine(sha, entry, log.head) + "\n")), log.seq_ + 1,
        sha(HashInput(log.head, entry)))
  }

  // How far an append gets: opening the file raises, or so many characters of its line are written
  // (os.write may stop early without raising), after which append raises or returns.
  datatype Outcome = Unopened | Wrote(count: nat, raised: bool)

  // What reaches the file.
  function Piece(line: string, outcome: Outcome): string {
    if outcome.Unopened? then "" else if outcome.count < |line| then line[..outcome.count] else line
  }

  // The sequence number always moves on, the head only when append returns.
  function AppendAs(sha: Sha, log: Log, ts: string, event: string, data: Json, outcome: Outcome): Log {
    var entry := Entry(log.seq_ + 1, ts, event, data, log.head);
    Log(if outcome.Unopened? then log.file
        else Some(log.file.GetOr("") + Piece(EntryLine(sha, entry, log.head) + "\n", outcome)),
        log.seq_ + 1,
        if outcome.Unopened? || outcome.raised then log.head else sha(HashInput(log.head, entry)))
  }

  // Which is an append that writes all of its line and returns.
  lemma {:induction false} AppendIsWhole(sha: Sha, log: Log, ts: string, event: string, data: Json, count: nat)
    requires |EntryLine(sha, Entry(log.seq_ + 1, ts, event, data, log.head), log.head)| < count
    ensures AppendAs(sha, log, ts, event, data, Wrote(count, false)) == Append(sha, log, ts, event, data)
  {
  }

  class AuditLog {
    const sha: Sha
    var file: Option<string>
    var seq_: nat
    var head: string
    var tamperError: Option<Error>

    ghost function View(): Log
      reads this
    {
      Log(file, seq_, head)
    }

    constructor (sha: Sha, file: Option<string>)
      requires !VerifyFile(sha, file, None).Escapes?
      ensures this.sha == sha && View() == Opened(sha, file)
      ensures tamperError == VerifyFile(sha, file, None).error
    {
      var v := Verify(sha, file, None);
      this.sha, this.file, seq_, head := sha, file, v.n, v.head;
      tamperError := v.error;
    }

    method Record(ts: string, event: string, data: Json, outcome: Outcome) returns (r: Option<(nat, string)>)
      modifies this
      ensures View() == AppendAs(sha, old(View()), ts, event, data, outcome)
      ensures r == if outcome.Unopened? || outcome.raised then None else Some((seq_, head))
      ensures tamperError == old(tamperError)
    {
      var n, prev := seq_ + 1, head;
      seq_ := n;
      var entry := Entry(n, ts, event, data, prev);
      var digest := sha(HashInput(prev, entry));
      var line := Canon(Obj(Insert(entry, Field("hash", Str(digest))))) + "\n";
      assert line == EntryLine(sha, entry, prev) + "\n";
      if outcome.Unopened? {
        return None;
      }
      var written := if outcome.count < |line| then line[..outcome.count] else line;
      assert written == Piece(line, outcome);
      file := Some(file.GetOr("") + written);
      if outcome.raised {
        return None;
      }
      head := digest;
      return Some((seq_, head));
    }
  }
}
