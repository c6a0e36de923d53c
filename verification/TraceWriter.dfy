/** `to_json_line`, the string buffer it fills, and the JSONL writer with its sequence numbers. */
module TraceWriter {
  import opened Common
  import opened JsonText
  import opened TraceKeys
  import opened TraceRecords

  // ---------------------------------------------------------------- printing a line

  lemma QuotedPlain(s: string)
    requires Plain(s)
    ensures Quoted(s) == "\"" + s + "\""
  {
    PlainIsItself(Trace, s);
  }

  lemma EscapeNext(s: string, i: nat)
    requires i < |s|
    ensures Escape(Trace, s[..i + 1]) == Escape(Trace, s[..i]) + EscapeChar(Trace, s[i])
  {
    assert s[..i + 1] == s[..i] + [s[i]];
    EscapeAppend(Trace, s[..i], [s[i]]);
    assert [s[i]][1..] == [];
    assert EscapeChar(Trace, s[i]) + [] == EscapeChar(Trace, s[i]);
  }

  lemma {:induction false} NextField(fields: seq<Field>, k: nat)
    requires 0 < k < |fields|
    ensures PrintFields(fields[..k + 1]) == PrintFields(fields[..k]) + "," + PrintField(fields[k])
  {
    hide PrintField;
    var first, shorter, longer := PrintField(fields[0]), fields[..k], fields[..k + 1];
    if k == 1 {
      assert longer[1..] == [fields[1]];
    } else {
      NextField(fields[1..], k - 1);
      assert longer[1..] == fields[1..][..k] && shorter[1..] == fields[1..][..k - 1];
      var middle := PrintFields(shorter[1..]);
      assert PrintFields(longer) == first + "," + PrintFields(longer[1..]);
      assert PrintFields(shorter) == first + "," + middle;
      hide PrintFields;
      Regroup(first + ",", middle, ",");
      Regroup(first + ",", middle + ",", PrintField(fields[k]));
    }
  }

  lemma PlainNames()
    ensures Plain("seq") && Plain("abi_version") && Plain("slot") && Plain("command_count")
    ensures Plain("endpoint_slot") && Plain("msg_id") && Plain("recipient_mask")
    ensures Plain("mount_mask") && Plain("field_mask")
  {
    MorePlainNames();
  }

  lemma MorePlainNames()
    ensures Plain("endpoint_slot") && Plain("msg_id") && Plain("recipient_mask")
    ensures Plain("mount_mask") && Plain("field_mask")
  {
  }

  /** The mutable string the printers append to. */
  class Buffer {
    var text: string

    constructor ()
      ensures text == ""
    {
      text := "";
    }

    method Push(c: char)
      modifies this
      ensures text == old(text) + [c]
    {
      text := text + [c];
    }

    method PushStr(s: string)
      modifies this
      ensures text == old(text) + s
    {
      text := text + s;
    }

    method PushEscaped(ch: char)
      modifies this
      ensures text == old(text) + EscapeChar(Trace, ch)
    {
      if ch == '"' {
        PushStr("\\\"");
      } else if ch == '\\' {
        PushStr("\\\\");
      } else if ch == '\n' {
        PushStr("\\n");
      } else if ch == '\r' {
        PushStr("\\r");
      } else if ch == '\t' {
        PushStr("\\t");
      } else if ch <= '\U{1F}' {
        PushStr("\\u00" + [HexDigit(ch as int / 16), HexDigit(ch as int % 16)]);
      } else {
        Push(ch);
      }
    }

    /** `push_json_string` */
    method PushJsonString(value: string)
      modifies this
      ensures text == old(text) + Quoted(value)
    {
      Push('"');
      ghost var open := text;
      for i := 0 to |value|
        invariant text == open + Escape(Trace, value[..i])
      {
        PushEscaped(value[i]);
        EscapeNext(value, i);
        Regroup(open, Escape(Trace, value[..i]), EscapeChar(Trace, value[i]));
      }
      assert value[..|value|] == value;
      Push('"');
      Regroup(old(text) + ['"'], Escape(Trace, value), ['"']);
      Regroup(old(text), ['"'], Escape(Trace, value) + ['"']);
      Regroup(['"'], Escape(Trace, value), ['"']);
    }

    method PushJsonStringField(name: string, value: string)
      modifies this
      ensures text == old(text) + PrintField(TextField(name, value))
    {
      hide Escape, Quoted, Decimal;
      PushJsonString(name);
      Push(':');
      PushJsonString(value);
    }

    method PushJsonOptionalI32Field(name: string, value: Option<I32>)
      modifies this
      ensures text == old(text) + PrintField(Field(name, OptionalNumber(value)))
    {
      hide Escape, Quoted, Decimal;
      PushJsonString(name);
      Push(':');
      match value
      case Some(n) => PushStr(Decimal(n));
      case None => PushStr("null");
    }

    method PushJsonOptionalStringField(name: string, value: Option<string>)
      modifies this
      ensures text == old(text) + PrintField(Field(name, OptionalText(value)))
    {
      hide Escape, Quoted, Decimal;
      PushJsonString(name);
      Push(':');
      match value
      case Some(s) => PushJsonString(s);
      case None => PushStr("null");
    }

    /** `write!(out, "\"name\":{}", n)` */
    method WriteNumberField(name: string, n: int)
      requires Plain(name)
      modifies this
      ensures text == old(text) + PrintField(NumberField(name, n))
    {
      QuotedPlain(name);
      PushStr("\"");
      PushStr(name);
      PushStr("\":");
      PushStr(Decimal(n));
    }
  }

  /** One comma and one field further into the list. */
  lemma Pushed(prefix: string, before: string, fields: seq<Field>, k: nat, after: string)
    requires 0 < k < |fields|
    requires before == prefix + PrintFields(fields[..k])
    requires after == before + [','] + PrintField(fields[k])
    ensures after == prefix + PrintFields(fields[..k + 1])
  {
    NextField(fields, k);
    Regroup(prefix, PrintFields(fields[..k]), ",");
    Regroup(prefix, PrintFields(fields[..k]) + ",", PrintField(fields[k]));
  }

  lemma First(fields: seq<Field>)
    requires |fields| > 0
    ensures PrintFields(fields[..1]) == PrintField(fields[0])
    ensures fields[..|fields|] == fields
  {
  }

  method PushRuntimeFields(e: TraceEvent, out: Buffer)
    requires e.Runtime?
    modifies out
    ensures out.text == old(out.text) + PrintFields(EventFields(e))
  {
    hide PrintField, PrintFields, Plain;
    PlainNames();
    ghost var t, fields := out.text, EventFields(e);
    First(fields);
    out.PushJsonStringField("type", "runtime");
    ghost var before := out.text;
    out.Push(',');
    out.PushJsonStringField("phase", e.phase.AsStr());
    Pushed(t, before, fields, 1, out.text);
    before := out.text;
    out.Push(',');
    out.WriteNumberField("abi_version", e.abiVersion);
    Pushed(t, before, fields, 2, out.text);
  }

  method PushHookStatusFields(e: TraceEvent, out: Buffer)
    requires e.HookStatus?
    modifies out
    ensures out.text == old(out.text) + PrintFields(EventFields(e))
  {
    hide PrintField, PrintFields, Plain;
    PlainNames();
    ghost var t, fields := out.text, EventFields(e);
    First(fields);
    out.PushJsonStringField("type", "hook_status");
    ghost var before := out.text;
    out.Push(',');
    out.PushJsonStringField("hook", e.hook);
    Pushed(t, before, fields, 1, out.text);
    before := out.text;
    out.Push(',');
    out.PushJsonStringField("status", e.status.AsStr());
    Pushed(t, before, fields, 2, out.text);
    before := out.text;
    out.Push(',');
    out.PushJsonStringField("mode", e.mode.AsStr());
    Pushed(t, before, fields, 3, out.text);
    before := out.text;
    out.Push(',');
    out.PushJsonOptionalStringField("reason", e.reason);
    Pushed(t, before, fields, 4, out.text);
  }

  method PushNetRouteFields(e: TraceEvent, out: Buffer)
    requires e.NetRoute?
    modifies out
    ensures out.text == old(out.text) + PrintFields(EventFields(e))
  {
    hide PrintField, PrintFields, Plain;
    PlainNames();
    ghost var t, fields := out.text, EventFields(e);
    First(fields);
    out.PushJsonStringField("type", "net_route");
    ghost var before := out.text;
    out.Push(',');
    out.PushJsonStringField("direction", e.direction.AsStr());
    Pushed(t, before, fields, 1, out.text);
    before := out.text;
    out.Push(',');
    out.WriteNumberField("endpoint_slot", e.endpointSlot);
    Pushed(t, before, fields, 2, out.text);
    before := out.text;
    out.Push(',');
    out.WriteNumberField("msg_id", e.msgId);
    Pushed(t, before, fields, 3, out.text);
    before := out.text;
    out.Push(',');
    out.WriteNumberField("recipient_mask", e.recipientMask);
    Pushed(t, before, fields, 4, out.text);
    before := out.text;
    out.Push(',');
    out.PushJsonOptionalI32Field("user_message_type", e.userMessageType);
    Pushed(t, before, fields, 5, out.text);
    before := out.text;
    out.Push(',');
    out.PushJsonStringField("route", e.netRoute.AsStr());
    Pushed(t, before, fields, 6, out.text);
  }

  method PushUsercmdRouteFields(e: TraceEvent, out: Buffer)
    requires e.UsercmdRoute?
    modifies out
    ensures out.text == old(out.text) + PrintFields(EventFields(e))
  {
    hide PrintField, PrintFields, Plain;
    PlainNames();
    ghost var t, fields := out.text, EventFields(e);
    First(fields);
    out.PushJsonStringField("type", "usercmd_route");
    ghost var before := out.text;
    out.Push(',');
    out.WriteNumberField("slot", e.slot);
    Pushed(t, before, fields, 1, out.text);
    before := out.text;
    out.Push(',');
    out.WriteNumberField("command_count", e.commandCount);
    Pushed(t, before, fields, 2, out.text);
    before := out.text;
    out.Push(',');
    out.WriteNumberField("mount_mask", e.mountMask);
    Pushed(t, before, fields, 3, out.text);
    before := out.text;
    out.Push(',');
    out.WriteNumberField("field_mask", e.fieldMask);
    Pushed(t, before, fields, 4, out.text);
    before := out.text;
    out.Push(',');
    out.PushJsonStringField("route", e.usercmdRoute.AsStr());
    Pushed(t, before, fields, 5, out.text);
  }

  method PushSubscriptionFields(e: TraceEvent, out: Buffer)
    requires e.Subscription?
    modifies out
    ensures out.text == old(out.text) + PrintFields(EventFields(e))
  {
    hide PrintField, PrintFields, Plain;
    PlainNames();
    ghost var t, fields := out.text, EventFields(e);
    First(fields);
    out.PushJsonStringField("type", "subscription");
    ghost var before := out.text;
    out.Push(',');
    out.PushJsonStringField("plugin", e.plugin);
    Pushed(t, before, fields, 1, out.text);
    before := out.text;
    out.Push(',');
    out.PushJsonStringField("surface", e.surface);
    Pushed(t, before, fields, 2, out.text);
    before := out.text;
    out.Push(',');
    out.PushJsonStringField("name", e.name);
    Pushed(t, before, fields, 3, out.text);
    before := out.text;
    out.Push(',');
    out.PushJsonStringField("action", e.action.AsStr());
    Pushed(t, before, fields, 4, out.text);
  }

  /** `TraceEvent::push_json_fields` */
  method PushEventFields(e: TraceEvent, out: Buffer)
    modifies out
    ensures out.text == old(out.text) + PrintFields(EventFields(e))
  {
    match e
    case Runtime(_, _) => PushRuntimeFields(e, out);
    case HookStatus(_, _, _, _) => PushHookStatusFields(e, out);
    case NetRoute(_, _, _, _, _, _) => PushNetRouteFields(e, out);
    case UsercmdRoute(_, _, _, _, _) => PushUsercmdRouteFields(e, out);
    case Subscription(_, _, _, _) => PushSubscriptionFields(e, out);
  }

  lemma LineText(line: Line)
    ensures PrintLine(line) ==
            "{" + PrintField(NumberField("seq", line.sequence)) + "," + PrintFields(ItemFields(line.item)) + "}"
  {
    hide PrintField;
    var fields := LineFields(line);
    assert fields[1..] == ItemFields(line.item);
    Regroup("{", PrintField(fields[0]) + ",", PrintFields(fields[1..]));
    Regroup("{", PrintField(fields[0]), ",");
  }

  method ToJsonLine(sequence: U64, event: TraceEvent) returns (line: string)
    ensures line == PrintLine(Line(sequence, Event(event)))
    ensures ReadByKey(line) == Some(Said(Line(sequence, Event(event))))
  {
    LineSays(Line(sequence, Event(event)));
    hide PrintField, PrintFields, PrintLine, ReadByKey, Said;
    var out := new Buffer();
    out.Push('{');
    out.WriteNumberField("seq", sequence);
    out.Push(',');
    PushEventFields(event, out);
    out.Push('}');
    line := out.text;
    LineText(Line(sequence, Event(event)));
  }

  lemma PlainTextField(name: string, text: string)
    requires Plain(name) && Plain(text)
    ensures PrintField(TextField(name, text)) == "\"" + name + "\":\"" + text + "\""
  {
    QuotedPlain(name);
    QuotedPlain(text);
  }

  lemma SchemaLiteral()
    ensures PrintField(TextField("type", "schema")) == "\"type\":\"schema\""
  {
    hide PrintField;
    PlainTextField("type", "schema");
  }

  lemma TwoFields(a: Field, b: Field)
    ensures PrintFields([a, b]) == PrintField(a) + "," + PrintField(b)
  {
    hide PrintField;
    assert [a, b][1..] == [b];
  }

  lemma SchemaText(sequence: U64)
    ensures PrintLine(Line(sequence, Schema(TRACE_SCHEMA_VERSION))) ==
            "{" + PrintField(NumberField("seq", sequence)) + "," + "\"type\":\"schema\"" + "," +
            PrintField(NumberField("schema_version", TRACE_SCHEMA_VERSION)) + "}"
  {
    hide PrintField, PrintFields, PrintLine;
    LineText(Line(sequence, Schema(TRACE_SCHEMA_VERSION)));
    TwoFields(TextField("type", "schema"), NumberField("schema_version", TRACE_SCHEMA_VERSION));
    SchemaLiteral();
    assert PrintFields(ItemFields(Schema(TRACE_SCHEMA_VERSION))) ==
           "\"type\":\"schema\"" + "," + PrintField(NumberField("schema_version", TRACE_SCHEMA_VERSION));
  }

  lemma PlainNumberField(name: string, n: int)
    requires Plain(name)
    ensures PrintField(NumberField(name, n)) == "\"" + name + "\":" + Decimal(n)
  {
    QuotedPlain(name);
  }

  lemma Glue(q: string, number: string, t: string, y: string, head: string, tail: string)
    requires head == "{" + q && tail == "," + t + "," + y + "}"
    ensures "{" + (q + number) + "," + t + "," + y + "}" == head + number + tail
  {
  }

  lemma HeaderPieces()
    ensures "{\"seq\":" == "{" + ("\"" + "seq" + "\":")
    ensures ",\"type\":\"schema\",\"schema_version\":1}" ==
            "," + "\"type\":\"schema\"" + "," + ("\"" + "schema_version" + "\":" + "1") + "}"
  {
  }

  lemma HeaderNames()
    ensures Plain("seq") && Plain("schema_version")
  {
  }

  lemma One()
    ensures Decimal(1) == "1"
  {
    DigitsExactly(1);
    hide HexDigit;
  }

  lemma HeaderFields(sequence: U64)
    ensures PrintField(NumberField("seq", sequence)) == "\"" + "seq" + "\":" + Decimal(sequence)
    ensures PrintField(NumberField("schema_version", TRACE_SCHEMA_VERSION)) == "\"" + "schema_version" + "\":" + "1"
  {
    HeaderNames();
    One();
    hide PrintField, Plain, Decimal;
    PlainNumberField("seq", sequence);
    PlainNumberField("schema_version", 1);
  }

  lemma HeaderLiteral(sequence: U64)
    ensures "{" + PrintField(NumberField("seq", sequence)) + "," + "\"type\":\"schema\"" + "," +
            PrintField(NumberField("schema_version", TRACE_SCHEMA_VERSION)) + "}" ==
            "{\"seq\":" + Decimal(sequence) + ",\"type\":\"schema\",\"schema_version\":1}"
  {
    HeaderFields(sequence);
    hide PrintField, Decimal;
    HeaderPieces();
    Glue("\"" + "seq" + "\":", Decimal(sequence), "\"type\":\"schema\"", "\"" + "schema_version" + "\":" + "1",
         "{\"seq\":", ",\"type\":\"schema\",\"schema_version\":1}");
  }

  lemma HeaderTold(sequence: U64, text: string)
    requires text == "{" + PrintField(NumberField("seq", sequence)) + "," + "\"type\":\"schema\"" + "," +
                     PrintField(NumberField("schema_version", TRACE_SCHEMA_VERSION)) + "}"
    ensures text == PrintLine(Line(sequence, Schema(TRACE_SCHEMA_VERSION)))
    ensures text == "{\"seq\":" + Decimal(sequence) + ",\"type\":\"schema\",\"schema_version\":1}"
    ensures ReadByKey(text) == Some(Said(Line(sequence, Schema(1))))
  {
    hide PrintField, PrintLine, ReadByKey, Said, Decimal;
    LineSays(Line(sequence, Schema(1)));
    SchemaText(sequence);
    HeaderLiteral(sequence);
  }

  // ---------------------------------------------------------------- whole outputs

  function PrintLines(lines: seq<Line>): string {
    if |lines| == 0 then [] else PrintLine(lines[0]) + ['\n'] + PrintLines(lines[1..])
  }

  /** Where the first newline of a text is, or its length. */
  function LineEnd(text: string): (k: nat)
    ensures k <= |text|
    ensures forall i | 0 <= i < k :: text[i] != '\n'
    ensures k < |text| ==> text[k] == '\n'
  {
    if text == [] || text[0] == '\n' then 0 else 1 + LineEnd(text[1..])
  }

  /** Splits an output at its newlines and reads every line; each must be ended by a newline. */
  function ReadLines(text: string): Option<seq<Line>>
    decreases |text|
  {
    if |text| == 0 then Some([])
    else
      var k := LineEnd(text);
      if k == |text| || ReadLine(text[..k]).None? then None
      else
        var more := ReadLines(text[k + 1..]);
        if more.None? then None else Some([ReadLine(text[..k]).value] + more.value)
  }

  lemma {:induction false} LineEndOf(line: string, rest: string)
    requires Clean(line) && rest != [] && rest[0] == '\n'
    ensures LineEnd(line + rest) == |line|
  {
    if line == [] {
      assert line + rest == rest;
    } else {
      assert (line + rest)[1..] == line[1..] + rest && (line + rest)[0] == line[0];
      LineEndOf(line[1..], rest);
    }
  }

  /** An output of any lines splits back into exactly those lines, in order. */
  lemma {:induction false} LinesRoundTrip(lines: seq<Line>)
    ensures ReadLines(PrintLines(lines)) == Some(lines)
  {
    hide PrintLine, ReadLine, LineEnd;
    if |lines| > 0 {
      var line, rest := PrintLine(lines[0]), PrintLines(lines[1..]);
      var text := line + (['\n'] + rest);
      Regroup(line, ['\n'], rest);
      LineIsClean(lines[0]);
      LineEndOf(line, ['\n'] + rest);
      assert text[..|line|] == line && text[|line| + 1..] == rest;
      LineRoundTrip(lines[0]);
      LinesRoundTrip(lines[1..]);
      assert lines == [lines[0]] + lines[1..];
    }
  }

  lemma {:induction false} PrintLinesAppend(lines: seq<Line>, line: Line)
    ensures PrintLines(lines + [line]) == PrintLines(lines) + PrintLine(line) + ['\n']
  {
    hide PrintLine;
    if |lines| == 0 {
      assert (lines + [line])[1..] == [];
    } else {
      PrintLinesAppend(lines[1..], line);
      assert (lines + [line])[1..] == lines[1..] + [line];
      var first := PrintLine(lines[0]) + ['\n'];
      Regroup(first, PrintLines(lines[1..]) + PrintLine(line), ['\n']);
      Regroup(first, PrintLines(lines[1..]), PrintLine(line));
    }
  }

  // ---------------------------------------------------------------- the writer

  const SEQUENCES: int := 0x1_0000_0000_0000_0000

  /** What the underlying writer answers: how much of the line gets out before it fails, and whether
      it fails at the newline. */
  datatype Device = Device(line: Option<nat>, newlineFails: bool) {
    predicate Works() { line.None? && !newlineFails }
  }

  /** What gets out of a line and its newline. */
  function Kept(text: string, device: Device): string {
    if device.line.Some? then FirstOf(text, device.line.value)
    else if device.newlineFails then text
    else text + ['\n']
  }

  class JsonlTraceWriter {
    var writer: string
    var nextSequence: U64

    constructor ()
      ensures writer == [] && nextSequence == 0
    {
      writer, nextSequence := "", 0;
    }

    method TakeSequence() returns (sequence: U64)
      modifies `nextSequence
      ensures sequence == old(nextSequence) && nextSequence == (sequence + 1) % SEQUENCES
    {
      sequence := nextSequence;
      nextSequence := (nextSequence + 1) % SEQUENCES;
    }

    /** `write_json_line`: the line and its newline, or an error and what got out before it. */
    method WriteLine(text: string, device: Device) returns (ok: bool)
      modifies `writer
      ensures ok == device.Works() && writer == old(writer) + Kept(text, device)
    {
      if device.line.Some? {
        writer := writer + FirstOf(text, device.line.value);
        return false;
      }
      writer := writer + text;
      if device.newlineFails {
        return false;
      }
      writer := writer + ['\n'];
      Regroup(old(writer), text, ['\n']);
      return true;
    }

    method WriteSchemaHeader(device: Device) returns (sequence: Option<U64>)
      modifies this
      ensures sequence == if device.Works() then Some(old(nextSequence)) else None
      ensures nextSequence == (old(nextSequence) + 1) % SEQUENCES
      ensures writer == old(writer) + Kept(PrintLine(Line(old(nextSequence), Schema(TRACE_SCHEMA_VERSION))), device)
    {
      hide PrintLine, Kept;
      var number := TakeSequence();
      var text := HeaderText(number);
      var ok := WriteLine(text, device);
      return if ok then Some(number) else None;
    }

    method WriteEvent(event: TraceEvent, device: Device) returns (sequence: Option<U64>)
      modifies this
      ensures sequence == if device.Works() then Some(old(nextSequence)) else None
      ensures nextSequence == (old(nextSequence) + 1) % SEQUENCES
      ensures writer == old(writer) + Kept(PrintLine(Line(old(nextSequence), Event(event))), device)
    {
      hide PrintLine, Kept;
      var number := TakeSequence();
      var text := ToJsonLine(number, event);
      var ok := WriteLine(text, device);
      return if ok then Some(number) else None;
    }

    method WriteRecord(sequence: U64, event: TraceEvent, device: Device) returns (ok: bool)
      modifies this
      ensures ok == device.Works() && nextSequence == old(nextSequence)
      ensures writer == old(writer) + Kept(PrintLine(Line(sequence, Event(event))), device)
    {
      hide PrintLine, Kept;
      var text := ToJsonLine(sequence, event);
      ok := WriteLine(text, device);
    }
  }

  /** `push_json_header_fields` */
  method PushHeaderFields(out: Buffer)
    modifies out
    ensures out.text == old(out.text) + PrintField(NumberField("schema_version", TRACE_SCHEMA_VERSION))
  {
    hide Escape, Quoted, Decimal;
    out.PushJsonString("schema_version");
    out.Push(':');
    out.PushStr(Decimal(TRACE_SCHEMA_VERSION));
  }

  method HeaderText(sequence: U64) returns (text: string)
    ensures text == PrintLine(Line(sequence, Schema(TRACE_SCHEMA_VERSION)))
    ensures text == "{\"seq\":" + Decimal(sequence) + ",\"type\":\"schema\",\"schema_version\":1}"
    ensures ReadByKey(text) == Some(Said(Line(sequence, Schema(1))))
  {
    hide PrintField, PrintLine, ReadByKey, Said, Decimal;
    var line := new Buffer();
    line.Push('{');
    line.WriteNumberField("seq", sequence);
    line.Push(',');
    line.PushStr("\"type\":\"schema\",");
    PushHeaderFields(line);
    line.Push('}');
    text := line.text;
    HeaderTold(sequence, text);
  }
}
