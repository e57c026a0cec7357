/** Append, restart, verify: what any history of the log does to its file, down to writes that stop in
    the middle of a line. */
module Histories {
  import opened Prelude
  import opened Json
  import opened Audit
  import opened AuditLaws
  import JsonPieces
  import TornJson
  import TornLines

  datatype Op = Write(ts: string, event: string, data: Json, outcome: Outcome) | Reopen

  function Perform(sha: Sha, log: Log, op: Op): Log {
    match op
    case Write(ts, event, data, outcome) => AppendAs(sha, log, ts, event, data, outcome)
    case Reopen => if VerifyFile(sha, log.file, None).Escapes? then log else Opened(sha, log.file)
  }

  // A history of the log from a file that does not exist yet.
  function Run(sha: Sha, ops: seq<Op>): Log {
    if ops == [] then Log(None, 0, GENESIS) else Perform(sha, Run(sha, ops[..|ops| - 1]), ops[|ops| - 1])
  }

  // ---- what an operation writes --------------------------------------------------------------

  // What goes into the line of one entry.
  datatype Draft = Draft(number: nat, ts: string, event: string, data: Json, prev: string)

  function EntryOf(d: Draft): seq<Field> {
    Entry(d.number, d.ts, d.event, d.data, d.prev)
  }

  function LineOf(sha: Sha, d: Draft): string {
    EntryLine(sha, EntryOf(d), d.prev)
  }

  function DigestOf(sha: Sha, d: Draft): string {
    sha(HashInput(d.prev, EntryOf(d)))
  }

  function Drafted(log: Log, op: Op): Draft
    requires op.Write?
  {
    Draft(log.seq_ + 1, op.ts, op.event, op.data, log.head)
  }

  // How much of the line reaches the file: nothing, a part, all but the newline, or all.
  datatype Extent = Nothing | Part | Unended | Full

  function Reaches(sha: Sha, d: Draft, outcome: Outcome): Extent {
    if outcome.Unopened? || outcome.count == 0 then Nothing
    else if outcome.count < |LineOf(sha, d)| then Part
    else if outcome.count == |LineOf(sha, d)| then Unended
    else Full
  }

  // ---- the file without its text -------------------------------------------------------------

  // What follows the last newline: nothing, one whole entry, or what is not JSON.
  datatype Tail = Clean | Entire(made: Draft) | Garbled

  // What checking the whole lines comes to, and the tail.
  datatype Page = Page(lines: Progress, tail: Tail)

  // What checking all of it comes to.
  function Seen(sha: Sha, page: Page): Progress {
    if !page.lines.Going? then page.lines
    else match page.tail
    case Clean => page.lines
    case Entire(d) => EntryProgress(sha, page.lines, d.number, EntryOf(d), d.prev)
    case Garbled => Bad(page.lines.n, page.lines.prev, page.lines.line + 1, Unparsable)
  }

  // The tail once a whole line is written behind it.
  function WithLine(tail: Tail, d: Draft): Tail {
    if tail.Clean? then Entire(d) else Garbled
  }

  // The file after one more write.
  function Extended(sha: Sha, page: Page, d: Draft, extent: Extent): Page {
    match extent
    case Nothing => page
    case Part => Page(page.lines, Garbled)
    case Unended => Page(page.lines, WithLine(page.tail, d))
    case Full => Page(Seen(sha, Page(page.lines, WithLine(page.tail, d))), Clean)
  }

  // The file after a history, told from its operations alone, without any text.
  function OnDisk(sha: Sha, ops: seq<Op>): Page {
    if ops == [] then Page(START, Clean)
    else
      var init, op := ops[..|ops| - 1], ops[|ops| - 1];
      if op.Reopen? then OnDisk(sha, init)
      else
        var d := Drafted(Run(sha, init), op);
        Extended(sha, OnDisk(sha, init), d, Reaches(sha, d, op.outcome))
  }

  // ---- the text and the page -----------------------------------------------------------------

  // The text whose whole lines are `whole`, and whose torn line is `torn`, is what the page says.
  ghost predicate Shows(sha: Sha, whole: string, torn: string, page: Page) {
    && Ended(whole) && '\n' !in torn
    && CheckLines(sha, START, Lines(whole)) == page.lines
    && match page.tail
       case Clean => torn == ""
       case Entire(d) => torn == LineOf(sha, d) && WellFormed(d.data)
       case Garbled => torn != "" && torn[0] == '{' && Parse(torn) == None
  }

  lemma {:induction false} ClosedLine(sha: Sha, entry: seq<Field>, prev: string)
    ensures var line := EntryLine(sha, entry, prev); line != "" && line[|line| - 1] == '}'
  {
  }

  // What is known of the line of an entry.
  lemma {:induction false} LineFacts(sha: Sha, d: Draft)
    requires WellFormed(d.data)
    ensures var line := LineOf(sha, d); TornJson.EntryText(line) && '\n' !in line && line[|line| - 1] == '}'
  {
    TornLines.AppendedIsEntry(sha, d.number, d.ts, d.event, d.data, d.prev);
    ClosedLine(sha, EntryOf(d), d.prev);
  }

  lemma {:induction false} LineChecksAs(sha: Sha, p: Progress, d: Draft)
    requires WellFormed(d.data) && p.Going?
    ensures CheckLine(sha, p, LineOf(sha, d)) == EntryProgress(sha, p, d.number, EntryOf(d), d.prev)
  {
    EntryChecks(sha, p, d.number, d.ts, d.event, d.data, d.prev);
  }

  // What reaches the file, by how far it gets.
  lemma {:induction false} PieceReaches(sha: Sha, d: Draft, line: string, outcome: Outcome)
    requires line == LineOf(sha, d)
    ensures var piece := Piece(line + "\n", outcome);
            match Reaches(sha, d, outcome)
            case Nothing => piece == ""
            case Part => 1 <= outcome.count < |line| && piece == line[..outcome.count]
            case Unended => piece == line
            case Full => piece == line + "\n"
  {
    assert (line + "\n")[..|line|] == line;
    if outcome.Wrote? && outcome.count < |line| {
      assert (line + "\n")[..outcome.count] == line[..outcome.count];
    }
  }

  lemma {:induction false} Stretch(whole: string, torn: string, more: string, piece: string)
    requires piece == "" || piece == more || piece == more + "\n"
    ensures piece == more ==> whole + (torn + more) == whole + torn + piece
    ensures piece == more + "\n" ==> whole + (torn + more + "\n") + "" == whole + torn + piece
    ensures piece == "" ==> whole + torn == whole + torn + piece
  {
  }

  // One more write: what reaches the file moves the text as it moves the page.
  lemma {:induction false} ShowsNext(sha: Sha, whole: string, torn: string, page: Page, d: Draft, line: string,
                                     outcome: Outcome) returns (whole1: string, torn1: string)
    requires WellFormed(d.data) && line == LineOf(sha, d) && Shows(sha, whole, torn, page)
    ensures whole1 + torn1 == whole + torn + Piece(line + "\n", outcome)
    ensures Shows(sha, whole1, torn1, Extended(sha, page, d, Reaches(sha, d, outcome)))
  {
    PieceReaches(sha, d, line, outcome);
    var piece, extent := Piece(line + "\n", outcome), Reaches(sha, d, outcome);
    whole1, torn1 := ShowsMove(sha, whole, torn, page, d, line, extent, piece);
  }

  lemma {:induction false} ShowsMove(sha: Sha, whole: string, torn: string, page: Page, d: Draft, line: string,
                                     extent: Extent, piece: string) returns (whole1: string, torn1: string)
    requires WellFormed(d.data) && line == LineOf(sha, d) && Shows(sha, whole, torn, page)
    requires match extent
             case Nothing => piece == ""
             case Part => 1 <= |piece| < |line| && piece == line[..|piece|]
             case Unended => piece == line
             case Full => piece == line + "\n"
    ensures whole1 + torn1 == whole + torn + piece
    ensures Shows(sha, whole1, torn1, Extended(sha, page, d, extent))
  {
    match extent {
      case Nothing =>
        whole1, torn1 := whole, torn;
        Stretch(whole, torn, "", piece);
      case Part =>
        whole1, torn1 := whole, torn + piece;
        Stretch(whole, torn, piece, piece);
        ShowsPart(sha, whole, torn, page, d, line, |piece|);
      case Unended =>
        whole1, torn1 := whole, torn + line;
        Stretch(whole, torn, line, piece);
        ShowsUnended(sha, whole, torn, page, d, line);
      case Full =>
        whole1, torn1 := whole + (torn + line + "\n"), "";
        Stretch(whole, torn, line, piece);
        ShowsFull(sha, whole, torn, page, d, line);
    }
  }

  // What hangs behind the last newline begins like an entry.
  lemma {:induction false} TornBegins(sha: Sha, whole: string, torn: string, page: Page)
    requires Shows(sha, whole, torn, page) && !page.tail.Clean?
    ensures torn != "" && torn[0] == '{'
  {
    if page.tail.Entire? {
      LineFacts(sha, page.tail.made);
    }
  }

  lemma {:induction false} ShowsPart(sha: Sha, whole: string, torn: string, page: Page, d: Draft, line: string, k: nat)
    requires WellFormed(d.data) && line == LineOf(sha, d) && Shows(sha, whole, torn, page) && 1 <= k < |line|
    ensures Shows(sha, whole, torn + line[..k], Page(page.lines, Garbled))
  {
    LineFacts(sha, d);
    if page.tail.Clean? {
      JsonPieces.PieceParses(line, k);
      assert torn + line[..k] == line[..k];
    } else {
      TornBegins(sha, whole, torn, page);
      JsonPieces.PieceBehindParses(torn, line, k);
    }
  }

  // The line behind a torn one is not JSON.
  lemma {:induction false} BehindTorn(sha: Sha, whole: string, torn: string, page: Page, line: string)
    requires Shows(sha, whole, torn, page) && !page.tail.Clean? && TornJson.EntryText(line)
    ensures torn != "" && torn[0] == '{' && Parse(torn + line) == None
  {
    TornBegins(sha, whole, torn, page);
    JsonPieces.PieceBehindParses(torn, line, |line|);
    assert line[..|line|] == line;
  }

  lemma {:induction false} ShowsUnended(sha: Sha, whole: string, torn: string, page: Page, d: Draft, line: string)
    requires WellFormed(d.data) && line == LineOf(sha, d) && Shows(sha, whole, torn, page)
    ensures Shows(sha, whole, torn + line, Page(page.lines, WithLine(page.tail, d)))
  {
    LineFacts(sha, d);
    if page.tail.Clean? {
      assert torn + line == line;
    } else {
      BehindTorn(sha, whole, torn, page, line);
    }
  }

  lemma {:induction false} TailChecks(sha: Sha, p: Progress, torn: string, tail: Tail)
    requires torn != "" && (tail.Entire? ==> torn == LineOf(sha, tail.made) && WellFormed(tail.made.data))
    requires !tail.Clean? && (tail.Garbled? ==> Parse(torn) == None)
    ensures CheckLine(sha, p, torn) == Seen(sha, Page(p, tail))
  {
    if p.Going? && tail.Entire? {
      LineChecksAs(sha, p, tail.made);
    }
  }

  lemma {:induction false} ShowsFull(sha: Sha, whole: string, torn: string, page: Page, d: Draft, line: string)
    requires WellFormed(d.data) && line == LineOf(sha, d) && Shows(sha, whole, torn, page)
    ensures var all := Page(Seen(sha, Page(page.lines, WithLine(page.tail, d))), Clean);
            Shows(sha, whole + (torn + line + "\n"), "", all)
  {
    LineFacts(sha, d);
    LinesPlus(whole, torn + line);
    LineChecks(sha, whole, torn + line);
    if page.tail.Clean? {
      assert torn + line == line;
    } else {
      BehindTorn(sha, whole, torn, page, line);
    }
    TailChecks(sha, page.lines, torn + line, WithLine(page.tail, d));
  }

  // What a write leaves in the file, and what the log remembers.
  lemma {:induction false} WriteShape(sha: Sha, log: Log, op: Op)
    requires op.Write?
    ensures var d, after := Drafted(log, op), Perform(sha, log, op);
            && after.file.GetOr("") == log.file.GetOr("") + Piece(LineOf(sha, d) + "\n", op.outcome)
            && after.seq_ == log.seq_ + 1
            && after.head == if op.outcome.Unopened? || op.outcome.raised then log.head else DigestOf(sha, d)
  {
  }

  lemma {:induction false} TextShows(sha: Sha, ops: seq<Op>) returns (whole: string, torn: string)
    requires forall op <- ops :: op.Write? ==> WellFormed(op.data)
    ensures Run(sha, ops).file.GetOr("") == whole + torn && Shows(sha, whole, torn, OnDisk(sha, ops))
  {
    if ops == [] {
      whole, torn := "", "";
      assert Lines("") == [];
    } else {
      var init, op := ops[..|ops| - 1], ops[|ops| - 1];
      whole, torn := TextShows(sha, init);
      if op.Write? {
        assert op in ops;
        var d := Drafted(Run(sha, init), op);
        WriteShape(sha, Run(sha, init), op);
        whole, torn := ShowsNext(sha, whole, torn, OnDisk(sha, init), d, LineOf(sha, d), op.outcome);
      }
    }
  }

  lemma {:induction false} ShowsSeen(sha: Sha, whole: string, torn: string, page: Page)
    requires Shows(sha, whole, torn, page)
    ensures CheckLines(sha, START, Lines(whole + torn)) == Seen(sha, page)
  {
    LinesAppend(whole, torn);
    TornLines.LastLine(torn);
    if page.tail.Clean? {
      assert whole + torn == whole;
    } else {
      TornBegins(sha, whole, torn, page);
      SnocChecks(sha, Lines(whole), torn);
      TailChecks(sha, page.lines, torn, page.tail);
    }
  }

  // Checking the text of the file after any history comes out as what its operations alone say.
  lemma {:induction false} HistoryTracks(sha: Sha, ops: seq<Op>)
    requires forall op <- ops :: op.Write? ==> WellFormed(op.data)
    ensures CheckLines(sha, START, Lines(Run(sha, ops).file.GetOr(""))) == Seen(sha, OnDisk(sha, ops))
  {
    var whole, torn := TextShows(sha, ops);
    ShowsSeen(sha, whole, torn, OnDisk(sha, ops));
  }

  // ---- what a history says about the verdict -------------------------------------------------

  // How far the last operation gets.
  function Got(sha: Sha, ops: seq<Op>): Extent
    requires ops != []
  {
    var init, op := ops[..|ops| - 1], ops[|ops| - 1];
    if op.Reopen? then Nothing else Reaches(sha, Drafted(Run(sha, init), op), op.outcome)
  }

  // The last operation puts a whole line into the file, with or without its newline.
  predicate Lands(sha: Sha, ops: seq<Op>)
    requires ops != []
  {
    Got(sha, ops).Unended? || Got(sha, ops).Full?
  }

  // Entries whose line is in the file as a whole, and the hash of the last one.
  function Landed(sha: Sha, ops: seq<Op>): nat {
    if ops == [] then 0 else Landed(sha, ops[..|ops| - 1]) + if Lands(sha, ops) then 1 else 0
  }

  function LastDigest(sha: Sha, ops: seq<Op>): string {
    if ops == [] then GENESIS
    else
      var init := ops[..|ops| - 1];
      if Lands(sha, ops) then DigestOf(sha, Drafted(Run(sha, init), ops[|ops| - 1])) else LastDigest(sha, init)
  }

  // The last line in the file lacks its newline.
  predicate Hanging(sha: Sha, ops: seq<Op>) {
    && ops != []
    && match Got(sha, ops)
       case Nothing => Hanging(sha, ops[..|ops| - 1])
       case Part => true
       case Unended => true
       case Full => false
  }

  // A write has left nothing in the file since the log was last opened: its count is ahead.
  predicate Behind(sha: Sha, ops: seq<Op>) {
    && ops != [] && ops[|ops| - 1].Write?
    && (Got(sha, ops).Nothing? || Behind(sha, ops[..|ops| - 1]))
  }

  // The head that the log remembers is not the hash of the last entry in the file: since it was opened
  // a line landed whose append raised, or an append returned that landed none (unless that hash is the
  // head anyway).
  predicate Astray(sha: Sha, ops: seq<Op>) {
    && ops != [] && ops[|ops| - 1].Write?
    && var init, op := ops[..|ops| - 1], ops[|ops| - 1];
       var raised := op.outcome.Unopened? || op.outcome.raised;
       if Lands(sha, ops) then raised && DigestOf(sha, Drafted(Run(sha, init), op)) != Run(sha, init).head
       else if raised then Astray(sha, init)
       else DigestOf(sha, Drafted(Run(sha, init), op)) != LastDigest(sha, init)
  }

  // Something was written while the last line lacked its newline, or the count or the head was off, or
  // it was a piece of a line.
  predicate Spoiled(sha: Sha, ops: seq<Op>) {
    && ops != []
    && var init := ops[..|ops| - 1];
       || Spoiled(sha, init)
       || (!Got(sha, ops).Nothing?
           && (Got(sha, ops).Part? || Hanging(sha, init) || Behind(sha, init) || Astray(sha, init)))
  }

  // The spoiled line has got its newline.
  predicate Sealed(sha: Sha, ops: seq<Op>) {
    ops != [] && (Sealed(sha, ops[..|ops| - 1]) || (Got(sha, ops).Full? && Spoiled(sha, ops)))
  }

  // What is reported.
  function Fault(sha: Sha, ops: seq<Op>): Problem {
    if ops == [] then Unparsable else
    var init := ops[..|ops| - 1];
    if Sealed(sha, init) || (Spoiled(sha, init) && Got(sha, ops).Nothing?) then Fault(sha, init)
    else if Spoiled(sha, init) || Got(sha, ops).Part? || Hanging(sha, init) then Unparsable
    else if Behind(sha, init) then SequenceGap
    else BrokenLink
  }

  // How the open log and the history stand to the file.
  ghost predicate Stands(sha: Sha, ops: seq<Op>) {
    var page, log := OnDisk(sha, ops), Run(sha, ops);
    var q := Seen(sha, page);
    && !page.lines.Raised? && !q.Raised?
    && (page.lines.Bad? <==> Sealed(sha, ops)) && (q.Bad? <==> Spoiled(sha, ops))
    && (page.tail.Clean? <==> !Hanging(sha, ops)) && (page.tail.Garbled? ==> q.Bad?)
    && (page.lines.Going? ==> page.lines.line == page.lines.n)
    && (if q.Bad? then q.problem == Fault(sha, ops) && q.line == q.n + (if q.problem.Unparsable? then 1 else 0)
        else
          && q.line == q.n == Landed(sha, ops) && q.n <= log.seq_ && q.prev == LastDigest(sha, ops)
          && (q.n == log.seq_ <==> !Behind(sha, ops))
          && (q.prev == log.head <==> !Astray(sha, ops)))
  }

  // Opening takes count and head of what is on disk.
  lemma {:induction false} ReopenTakes(sha: Sha, ops: seq<Op>)
    requires ops != [] && ops[|ops| - 1].Reopen?
    requires forall op <- ops :: op.Write? ==> WellFormed(op.data)
    requires !Seen(sha, OnDisk(sha, ops)).Raised?
    ensures var q := Seen(sha, OnDisk(sha, ops)); Run(sha, ops).seq_ == q.n && Run(sha, ops).head == q.prev
  {
    HistoryTracks(sha, ops[..|ops| - 1]);
    assert Lines("") == [];
  }

  lemma {:induction false} ReopenStands(sha: Sha, ops: seq<Op>)
    requires ops != [] && ops[|ops| - 1].Reopen? && Stands(sha, ops[..|ops| - 1])
    requires forall op <- ops :: op.Write? ==> WellFormed(op.data)
    ensures Stands(sha, ops)
  {
    ReopenTakes(sha, ops);
  }

  lemma {:induction false} NothingStands(sha: Sha, ops: seq<Op>)
    requires ops != [] && ops[|ops| - 1].Write? && Stands(sha, ops[..|ops| - 1])
    requires Got(sha, ops).Nothing?
    ensures Stands(sha, ops)
  {
    WriteShape(sha, Run(sha, ops[..|ops| - 1]), ops[|ops| - 1]);
  }

  lemma {:induction false} PartStands(sha: Sha, ops: seq<Op>)
    requires ops != [] && ops[|ops| - 1].Write? && Stands(sha, ops[..|ops| - 1])
    requires Got(sha, ops).Part?
    ensures Stands(sha, ops)
  {
  }

  lemma {:induction false} UnendedStands(sha: Sha, ops: seq<Op>)
    requires ops != [] && ops[|ops| - 1].Write? && Stands(sha, ops[..|ops| - 1])
    requires Got(sha, ops).Unended?
    ensures Stands(sha, ops)
  {
    WriteShape(sha, Run(sha, ops[..|ops| - 1]), ops[|ops| - 1]);
  }

  lemma {:induction false} FullStands(sha: Sha, ops: seq<Op>)
    requires ops != [] && ops[|ops| - 1].Write? && Stands(sha, ops[..|ops| - 1])
    requires Got(sha, ops).Full?
    ensures Stands(sha, ops)
  {
    WriteShape(sha, Run(sha, ops[..|ops| - 1]), ops[|ops| - 1]);
  }

  lemma {:induction false} HistoryStands(sha: Sha, ops: seq<Op>)
    requires forall op <- ops :: op.Write? ==> WellFormed(op.data)
    ensures Stands(sha, ops)
  {
    if ops != [] {
      HistoryStands(sha, ops[..|ops| - 1]);
      if ops[|ops| - 1].Reopen? {
        ReopenStands(sha, ops);
      } else {
        match Got(sha, ops) {
          case Nothing => NothingStands(sha, ops);
          case Part => PartStands(sha, ops);
          case Unended => UnendedStands(sha, ops);
          case Full => FullStands(sha, ops);
        }
      }
    }
  }

  // An anchor cut from the head of a verifying log passes.
  lemma {:induction false} OwnAnchor(sha: Sha, text: string, length: nat)
    requires var v := VerifyFile(sha, Some(text), None); v.Verdict? && v.ok && length <= |v.head|
    ensures var v := VerifyFile(sha, Some(text), None); VerifyFile(sha, Some(text), Some(v.head[..length])) == v
  {
    VerifiedHead(sha, text);
    var head := VerifyFile(sha, Some(text), None).head;
    assert forall c <- head[..length] :: c in head;
    LowerHex(head[..length]);
  }

  lemma {:induction false} VerdictIs(sha: Sha, file: Option<string>, q: Progress)
    requires q == CheckLines(sha, START, Lines(file.GetOr(""))) && !q.Raised?
    ensures var v := VerifyFile(sha, file, None);
            v == Verdict(q.Going?, q.n, q.prev, if q.Going? then None else Some(AtLine(q.line, q.problem)))
  {
    assert Lines("") == [];
  }

  lemma {:induction false} AnchorPasses(sha: Sha, file: Option<string>, length: nat)
    requires var v := VerifyFile(sha, file, None); v.Verdict? && v.ok && length <= 64
    ensures var v := VerifyFile(sha, file, None);
            |v.head| == 64 && VerifyFile(sha, file, Some(v.head[..length])) == v
  {
    if file.Some? {
      VerifiedHead(sha, file.value);
      OwnAnchor(sha, file.value, length);
    }
  }

  // What the verdict on the file says of the history.
  ghost predicate Tells(sha: Sha, ops: seq<Op>, v: Verdict) {
    var log := Run(sha, ops);
    && v.Verdict? && (v.ok <==> !Spoiled(sha, ops))
    && (v.ok ==> v.n == Landed(sha, ops) && v.head == LastDigest(sha, ops))
    && (v.ok ==> (v.n == log.seq_ <==> !Behind(sha, ops)) && (v.head == log.head <==> !Astray(sha, ops)))
    && (!v.ok ==>
          var fault := Fault(sha, ops);
          v.error == Some(AtLine(if fault.Unparsable? then v.n + 1 else v.n, fault)))
  }

  lemma {:induction false} StandsTells(sha: Sha, ops: seq<Op>, q: Progress)
    requires q == Seen(sha, OnDisk(sha, ops)) && Stands(sha, ops)
    ensures !q.Raised?
    ensures Tells(sha, ops, Verdict(q.Going?, q.n, q.prev, if q.Going? then None else Some(AtLine(q.line, q.problem))))
  {
  }

  lemma {:induction false} HistoryTells(sha: Sha, ops: seq<Op>)
    requires forall op <- ops :: op.Write? ==> WellFormed(op.data)
    ensures Tells(sha, ops, VerifyFile(sha, Run(sha, ops).file, None))
  {
    var q := CheckLines(sha, START, Lines(Run(sha, ops).file.GetOr("")));
    HistoryTracks(sha, ops);
    HistoryStands(sha, ops);
    StandsTells(sha, ops, q);
    VerdictIs(sha, Run(sha, ops).file, q);
  }

  // Append, restart, verify: after any history of reopenings and of appends that write all of their
  // line, a part or nothing of it, and then return or raise, all from a fresh file, the file verifies
  // if and only if the history is not spoiled. Then it holds as many entries as whole lines were put
  // into it, its head is the hash of the last one and passes as an anchor; the count is the log's
  // unless a write left nothing since it was opened, and the head is the log's unless it went astray.
  // Otherwise the first line that was spoiled is reported: a piece of a line, or what is written
  // behind a line that lacks its newline, as unparsable, and a line that was written while count or
  // head were off as a sequence gap or a broken link.
  lemma {:induction false} AppendRestartVerify(sha: Sha, ops: seq<Op>, anchorLength: nat)
    requires forall op <- ops :: op.Write? ==> WellFormed(op.data)
    requires anchorLength <= 64
    ensures var file := Run(sha, ops).file;
            var v := VerifyFile(sha, file, None);
            && Tells(sha, ops, v)
            && (v.ok ==> |v.head| == 64 && VerifyFile(sha, file, Some(v.head[..anchorLength])) == v)
  {
    HistoryTells(sha, ops);
    var file := Run(sha, ops).file;
    if VerifyFile(sha, file, None).ok {
      AnchorPasses(sha, file, anchorLength);
    }
  }
}
