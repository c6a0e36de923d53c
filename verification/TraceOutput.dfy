/** Whole outputs of the JSONL writer, whatever fails while they are written, and what reads back. */
module TraceOutput {
  import opened Common
  import opened JsonText
  import opened TraceRecords
  import opened TraceWriter

  // ---------------------------------------------------------------- what writes put out

  /** A call of the writer, with what the device does to its line. */
  datatype Write =
    | Header(device: Device)
    | Emit(event: TraceEvent, device: Device)
    | Record(sequence: U64, event: TraceEvent, device: Device)

  datatype Answer = Numbered(sequence: U64) | Done | Failed

  /** The numbers that the writer has given out; a failing write uses its number up. */
  function NumbersUsed(ws: seq<Write>): nat {
    if |ws| == 0 then 0 else NumbersUsed(ws[..|ws| - 1]) + Bit(!ws[|ws| - 1].Record?)
  }

  function LineOf(before: seq<Write>, w: Write): Line {
    match w
    case Header(_) => Line(NumbersUsed(before) % SEQUENCES, Schema(TRACE_SCHEMA_VERSION))
    case Emit(event, _) => Line(NumbersUsed(before) % SEQUENCES, Event(event))
    case Record(sequence, event, _) => Line(sequence, Event(event))
  }

  function AnswerOf(before: seq<Write>, w: Write): Answer {
    if !w.device.Works() then Failed
    else if w.Record? then Done
    else Numbered(NumbersUsed(before) % SEQUENCES)
  }

  /** The lines written without an error. */
  function LinesOf(ws: seq<Write>): seq<Line> {
    if |ws| == 0 then []
    else
      var before, w := ws[..|ws| - 1], ws[|ws| - 1];
      LinesOf(before) + if w.device.Works() then [LineOf(before, w)] else []
  }

  function AnswersOf(ws: seq<Write>): seq<Answer> {
    if |ws| == 0 then [] else AnswersOf(ws[..|ws| - 1]) + [AnswerOf(ws[..|ws| - 1], ws[|ws| - 1])]
  }

  function OutputOf(ws: seq<Write>): string {
    if |ws| == 0 then []
    else
      var before, w := ws[..|ws| - 1], ws[|ws| - 1];
      OutputOf(before) + Kept(PrintLine(LineOf(before, w)), w.device)
  }

  /** The write fails after something of its line has got out. */
  predicate Tears(device: Device) {
    if device.line.Some? then device.line.value > 0 else device.newlineFails
  }

  predicate NoTears(ws: seq<Write>) { forall i | 0 <= i < |ws| :: !Tears(ws[i].device) }

  /** Without `write_record` the line of write `i` carries the number `i`, failed writes counted too; it
      is the line after those of the earlier writes that worked. */
  lemma {:induction false} LinesNumbered(ws: seq<Write>, i: nat)
    requires i < |ws| && ws[i].device.Works() && forall j | 0 <= j < |ws| :: !ws[j].Record?
    ensures |LinesOf(ws[..i])| < |LinesOf(ws)| && NumbersUsed(ws) == |ws|
    ensures LinesOf(ws)[|LinesOf(ws[..i])|] == LineOf(ws[..i], ws[i])
    ensures LinesOf(ws)[|LinesOf(ws[..i])|].sequence == i % SEQUENCES
  {
    hide LineOf;
    var before, n := ws[..|ws| - 1], |ws| - 1;
    UsedAll(ws);
    UsedAll(ws[..i]);
    NumberOf(ws[..i], ws[i]);
    if i < n {
      LinesNumbered(before, i);
      assert before[..i] == ws[..i];
    } else {
      assert before == ws[..i];
    }
  }

  lemma {:induction false} UsedAll(ws: seq<Write>)
    requires forall j | 0 <= j < |ws| :: !ws[j].Record?
    ensures NumbersUsed(ws) == |ws|
  {
    if |ws| > 0 { UsedAll(ws[..|ws| - 1]); }
  }

  lemma NumberOf(before: seq<Write>, w: Write)
    requires !w.Record?
    ensures LineOf(before, w).sequence == NumbersUsed(before) % SEQUENCES
  {
  }

  // ---------------------------------------------------------------- a scan of JSON text

  /** Outside of strings, inside one, after a backslash inside one, or past a character that no object
      after its opening brace may have there. */
  datatype Mode = Outside | Inside | Escaped | Wrong

  predicate Structural(c: char) {
    c == ':' || c == ',' || c == '}' || c == '-' || c == 'n' || c == 'u' || c == 'l' || IsDigit(c)
  }

  function ScanChar(mode: Mode, c: char): Mode {
    match mode
    case Outside => if c == '"' then Inside else if Structural(c) then Outside else Wrong
    case Inside => if c == '"' then Outside else if c == '\\' then Escaped else Inside
    case Escaped => Inside
    case Wrong => Wrong
  }

  function Scan(mode: Mode, t: string): Mode
    decreases |t|
  {
    if |t| == 0 then mode else Scan(ScanChar(mode, t[0]), t[1..])
  }

  lemma {:induction false} ScanAppend(mode: Mode, a: string, b: string)
    ensures Scan(mode, a + b) == Scan(Scan(mode, a), b)
    decreases |a|
  {
    if |a| == 0 {
      assert a + b == b;
    } else {
      assert (a + b)[1..] == a[1..] + b;
      ScanAppend(ScanChar(mode, a[0]), a[1..], b);
    }
  }

  lemma {:induction false} WrongStays(t: string)
    ensures Scan(Wrong, t) == Wrong
  {
    if |t| > 0 { WrongStays(t[1..]); }
  }

  /** Characters that keep the mode. */
  lemma {:induction false} ScanKeeps(mode: Mode, t: string, n: nat)
    requires n <= |t| && forall i | 0 <= i < n :: ScanChar(mode, t[i]) == mode
    ensures Scan(mode, t) == Scan(mode, t[n..])
  {
    if n == 0 {
      assert t[0..] == t;
    } else {
      ScanKeeps(mode, t[1..], n - 1);
      assert t[1..][n - 1..] == t[n..];
    }
  }

  lemma CharScans(t: string)
    requires ReadChar(t).Some?
    ensures Scan(Inside, t) == Scan(Inside, t[ReadChar(t).value.1..])
  {
    var n := ReadChar(t).value.1;
    if n >= 2 {
      assert t[1..][1..] == t[2..];
      assert Scan(Inside, t) == Scan(Inside, t[2..]);
    }
    if n == 6 {
      HexScans(t);
      ScanKeeps(Inside, t[2..], 4);
      assert t[2..][4..] == t[6..];
    }
  }

  lemma HexScans(t: string)
    requires |t| >= 6 && ReadHex(t[2..6]).Some?
    ensures forall i | 0 <= i < 4 :: ScanChar(Inside, t[2..][i]) == Inside
  {
    var digits := t[2..6];
    forall i | 0 <= i < 4 ensures ScanChar(Inside, t[2..][i]) == Inside {
      assert t[2..][i] == digits[i] && HexValue(digits[i]).Some?;
    }
  }

  /** What is read as a string body scans from inside to outside. */
  lemma {:induction false} BodyScans(t: string)
    requires ReadBody(t).Some?
    ensures Scan(Inside, t) == Scan(Outside, ReadBody(t).value.1)
    decreases |t|
  {
    if !StartsWith(t, '"') {
      CharScans(t);
      BodyScans(t[ReadChar(t).value.1..]);
    }
  }

  lemma DigitsScan(t: string)
    requires ReadDigits(t).Some?
    ensures Scan(Outside, t) == Scan(Outside, ReadDigits(t).value.1)
  {
    ScanKeeps(Outside, t, LeadingDigits(t));
  }

  lemma NullScans(t: string)
    requires |t| >= 4 && t[..4] == "null"
    ensures Scan(Outside, t) == Scan(Outside, t[4..])
  {
    forall i | 0 <= i < 4 ensures ScanChar(Outside, t[i]) == Outside {
      assert t[i] == t[..4][i];
    }
    ScanKeeps(Outside, t, 4);
  }

  lemma ValueScans(t: string)
    requires ReadValue(t).Some?
    ensures Scan(Outside, t) == Scan(Outside, ReadValue(t).value.1)
  {
    hide ReadBody, ReadDigits;
    if StartsWith(t, '"') {
      BodyScans(t[1..]);
    } else if |t| >= 4 && t[..4] == "null" {
      NullScans(t);
    } else if StartsWith(t, '-') {
      DigitsScan(t[1..]);
    } else {
      DigitsScan(t);
    }
  }

  lemma FieldScans(t: string)
    requires ReadField(t).Some?
    ensures Scan(Outside, t) == Scan(Outside, ReadField(t).value.1)
  {
    hide ReadBody, ReadValue;
    BodyScans(t[1..]);
    var tail := ReadBody(t[1..]).value.1;
    ValueScans(tail[1..]);
  }

  lemma {:induction false} FieldsScan(t: string)
    requires ReadFields(t).Some?
    ensures Scan(Outside, t) == Outside
    decreases |t|
  {
    hide ReadField;
    FieldScans(t);
    var tail := ReadField(t).value.1;
    if !Ends(tail) {
      FieldsScan(tail[1..]);
    }
  }

  /** Whatever reads as an object scans from its opening brace to the outside of strings. */
  lemma ObjectScans(t: string)
    requires ReadObject(t).Some?
    ensures |t| > 0 && Scan(Outside, t[1..]) == Outside
  {
    hide ReadFields;
    if !Ends(t[1..]) { FieldsScan(t[1..]); }
  }

  // ---------------------------------------------------------------- a line behind something else

  /** Every printed line begins with `{"s`. */
  predicate FrontOfLine(t: string) { |t| >= 3 && t[0] == '{' && t[1] == '"' && t[2] == 's' }

  lemma SequenceFront(sequence: U64)
    ensures var field := PrintField(NumberField("seq", sequence)); |field| >= 2 && field[0] == '"' && field[1] == 's'
  {
    hide Escape, Quoted, Decimal;
    QuotedPlain("seq");
    assert Quoted("seq")[0] == '"' && Quoted("seq")[1] == 's';
  }

  lemma LineFront(line: Line)
    ensures FrontOfLine(PrintLine(line))
  {
    hide PrintLine, PrintField, PrintFields;
    LineText(line);
    SequenceFront(line.sequence);
  }

  /** From any mode the front of a line leads astray. */
  lemma FrontScansWrong(mode: Mode, t: string)
    requires FrontOfLine(t)
    ensures Scan(mode, t) == Wrong
  {
    var m0 := ScanChar(mode, t[0]);
    var m1 := ScanChar(m0, t[1]);
    assert Scan(m0, t[1..]) == Scan(m1, t[1..][1..]);
    assert t[1..][1..] == t[2..] && Scan(m1, t[2..]) == Scan(ScanChar(m1, t[2]), t[2..][1..]);
    WrongStays(t[2..][1..]);
  }

  /** Anything in front of a printed line spoils it. */
  lemma SpoiltLine(front: string, line: Line)
    requires front != []
    ensures ReadLine(front + PrintLine(line)).None?
  {
    hide PrintLine, ReadObject, ReadItem;
    LineFront(line);
    var t := front + PrintLine(line);
    assert t[1..] == front[1..] + PrintLine(line);
    ScanAppend(Outside, front[1..], PrintLine(line));
    FrontScansWrong(Scan(Outside, front[1..]), PrintLine(line));
    if ReadObject(t).Some? { ObjectScans(t); }
  }

  // ---------------------------------------------------------------- torn outputs

  /** A line that has not been ended. */
  predicate Unfinished(t: string) { t != [] && Clean(t) }

  /** Such a line, with a complete one run into it and anything after that. */
  ghost predicate Broken(t: string) {
    exists front, line, more :: Unfinished(front) && t == front + (PrintLine(line) + (['\n'] + more))
  }

  /** Complete lines, and then something that was torn. */
  ghost predicate TornAfter(text: string, lines: seq<Line>, rest: string) {
    text == PrintLines(lines) + rest && (Unfinished(rest) || Broken(rest))
  }

  lemma {:induction false} UnfinishedEnd(t: string)
    requires Clean(t)
    ensures LineEnd(t) == |t|
  {
    if t != [] { UnfinishedEnd(t[1..]); }
  }

  lemma JoinedClean(a: string, b: string)
    requires Clean(a) && Clean(b)
    ensures Clean(a + b)
  {
  }

  lemma TornUnread(t: string)
    requires Unfinished(t) || Broken(t)
    ensures ReadLines(t).None?
  {
    hide PrintLine, ReadLine, LineEnd, Clean;
    if Unfinished(t) {
      UnfinishedEnd(t);
    } else {
      var front, line, more :| Unfinished(front) && t == front + (PrintLine(line) + (['\n'] + more));
      LineIsClean(line);
      JoinedClean(front, PrintLine(line));
      Regroup(front, PrintLine(line), ['\n'] + more);
      LineEndOf(front + PrintLine(line), ['\n'] + more);
      SpoiltLine(front, line);
      assert t[..|front + PrintLine(line)|] == front + PrintLine(line);
    }
  }

  lemma {:induction false} ReadBehind(lines: seq<Line>, rest: string)
    requires ReadLines(rest).None?
    ensures ReadLines(PrintLines(lines) + rest).None?
  {
    hide PrintLine, ReadLine, LineEnd;
    if |lines| == 0 {
      assert [] + rest == rest;
    } else {
      var line, more := PrintLine(lines[0]), PrintLines(lines[1..]) + rest;
      var text := line + (['\n'] + more);
      Regroup(line + ['\n'], PrintLines(lines[1..]), rest);
      Regroup(line, ['\n'], more);
      LineIsClean(lines[0]);
      LineEndOf(line, ['\n'] + more);
      assert text[..|line|] == line && text[|line| + 1..] == more;
      ReadBehind(lines[1..], rest);
    }
  }

  lemma KeptShape(text: string, device: Device)
    requires Clean(text) && text != []
    ensures device.Works() ==> Kept(text, device) == text + ['\n']
    ensures !device.Works() ==> Clean(Kept(text, device)) && (Kept(text, device) != [] <==> Tears(device))
  {
  }

  /** What follows something torn leaves it torn. */
  lemma TornStays(text: string, lines: seq<Line>, rest: string, line: Line, device: Device)
    requires TornAfter(text, lines, rest)
    ensures TornAfter(text + Kept(PrintLine(line), device), lines, rest + Kept(PrintLine(line), device))
  {
    hide PrintLine, Kept, Clean;
    LineIsClean(line);
    KeptShape(PrintLine(line), device);
    var kept := Kept(PrintLine(line), device);
    Regroup(PrintLines(lines), rest, kept);
    if Broken(rest) {
      var front, l, more :| Unfinished(front) && rest == front + (PrintLine(l) + (['\n'] + more));
      assert rest + kept == front + (PrintLine(l) + (['\n'] + (more + kept)));
    } else if device.Works() {
      assert rest + kept == rest + (PrintLine(line) + (['\n'] + []));
    } else {
      JoinedClean(rest, kept);
    }
  }

  /** Without a tear the output is the lines written; with one it is torn after some of them. */
  lemma {:induction false} OutputShape(ws: seq<Write>)
    ensures NoTears(ws) ==> OutputOf(ws) == PrintLines(LinesOf(ws))
    ensures !NoTears(ws) ==> exists lines, rest :: TornAfter(OutputOf(ws), lines, rest)
  {
    hide PrintLine, LineOf, Kept, Clean, Tears, TornAfter;
    if |ws| > 0 {
      var before, w := ws[..|ws| - 1], ws[|ws| - 1];
      var line := LineOf(before, w);
      OutputShape(before);
      LineIsClean(line);
      KeptShape(PrintLine(line), w.device);
      assert NoTears(ws) <==> NoTears(before) && !Tears(w.device);
      if !NoTears(before) {
        var lines, rest :| TornAfter(OutputOf(before), lines, rest);
        TornStays(OutputOf(before), lines, rest, line, w.device);
        assert TornAfter(OutputOf(ws), lines, rest + Kept(PrintLine(line), w.device));
      } else if Tears(w.device) {
        TearsAfter(OutputOf(before), LinesOf(before), line, w.device);
        assert TornAfter(OutputOf(ws), LinesOf(before), Kept(PrintLine(line), w.device));
      } else if w.device.Works() {
        PrintLinesAppend(LinesOf(before), line);
        Regroup(PrintLines(LinesOf(before)), PrintLine(line), ['\n']);
      } else {
        assert OutputOf(before) + [] == OutputOf(before) && LinesOf(before) + [] == LinesOf(before);
      }
    }
  }

  lemma TearsAfter(text: string, lines: seq<Line>, line: Line, device: Device)
    requires text == PrintLines(lines) && Tears(device)
    ensures TornAfter(text + Kept(PrintLine(line), device), lines, Kept(PrintLine(line), device))
  {
    hide PrintLine, Kept;
    LineIsClean(line);
    KeptShape(PrintLine(line), device);
    DeviceTears(device);
  }

  lemma DeviceTears(device: Device)
    requires Tears(device)
    ensures !device.Works()
  {
  }

  /** The output of any writes reads back as exactly the lines written without an error if and only if
      no write failed after something of its line had got out; after such a failure nothing reads. */
  lemma OutputReadsBack(ws: seq<Write>)
    ensures ReadLines(OutputOf(ws)) == Some(LinesOf(ws)) <==> NoTears(ws)
    ensures !NoTears(ws) ==> ReadLines(OutputOf(ws)).None?
  {
    hide PrintLines, ReadLines, Unfinished, Broken, NoTears, OutputOf;
    OutputShape(ws);
    if NoTears(ws) {
      LinesRoundTrip(LinesOf(ws));
    } else {
      var lines, rest :| TornAfter(OutputOf(ws), lines, rest);
      TornUnread(rest);
      ReadBehind(lines, rest);
    }
  }

  // ---------------------------------------------------------------- whole runs

  /** One call of the writer. */
  method Apply(writer: JsonlTraceWriter, ghost before: seq<Write>, w: Write) returns (answer: Answer)
    requires writer.nextSequence == NumbersUsed(before) % SEQUENCES
    modifies writer
    ensures answer == AnswerOf(before, w)
    ensures writer.writer == old(writer.writer) + Kept(PrintLine(LineOf(before, w)), w.device)
    ensures writer.nextSequence == (NumbersUsed(before) + Bit(!w.Record?)) % SEQUENCES
  {
    hide PrintLine, Kept, NumbersUsed;
    CounterNext(NumbersUsed(before));
    var sequence, ok := None, false;
    match w {
      case Header(device) => sequence := writer.WriteSchemaHeader(device);
      case Emit(event, device) => sequence := writer.WriteEvent(event, device);
      case Record(number, event, device) => ok := writer.WriteRecord(number, event, device);
    }
    return if sequence.Some? then Numbered(sequence.value) else if ok then Done else Failed;
  }

  lemma CounterNext(n: nat)
    ensures (n % SEQUENCES + 1) % SEQUENCES == (n + 1) % SEQUENCES
  {
  }

  lemma WritesNext(ws: seq<Write>, i: nat)
    requires i < |ws|
    ensures OutputOf(ws[..i + 1]) == OutputOf(ws[..i]) + Kept(PrintLine(LineOf(ws[..i], ws[i])), ws[i].device)
    ensures AnswersOf(ws[..i + 1]) == AnswersOf(ws[..i]) + [AnswerOf(ws[..i], ws[i])]
    ensures NumbersUsed(ws[..i + 1]) == NumbersUsed(ws[..i]) + Bit(!ws[i].Record?)
  {
    hide PrintLine, Kept, LineOf, AnswerOf;
    assert ws[..i + 1][..i] == ws[..i];
  }

  /** Any calls of a new writer on any device: every answer, and an output that reads back as exactly
      the lines written without an error if and only if no write was torn. */
  method Run(ws: seq<Write>) returns (output: string, answers: seq<Answer>)
    ensures output == OutputOf(ws) && answers == AnswersOf(ws)
    ensures ReadLines(output) == Some(LinesOf(ws)) <==> NoTears(ws)
    ensures !NoTears(ws) ==> ReadLines(output).None?
  {
    var writer := new JsonlTraceWriter();
    answers := [];
    hide PrintLine, Kept, LineOf, AnswerOf, LinesOf, ReadLines, NoTears;
    for i := 0 to |ws|
      invariant fresh(writer) && writer.nextSequence == NumbersUsed(ws[..i]) % SEQUENCES
      invariant writer.writer == OutputOf(ws[..i]) && answers == AnswersOf(ws[..i])
    {
      WritesNext(ws, i);
      var answer := Apply(writer, ws[..i], ws[i]);
      answers := answers + [answer];
    }
    assert ws[..|ws|] == ws;
    output := writer.writer;
    OutputReadsBack(ws);
  }
}
