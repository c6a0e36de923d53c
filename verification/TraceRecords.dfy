/** The records of a trace, the JSON fields they are printed as, and the record read back. */
module TraceRecords {
  import opened Common
  import opened JsonText

  const TRACE_SCHEMA_VERSION: U32 := 1

  datatype RuntimePhase = Loaded | Started | Shutdown | Unloaded {
    function AsStr(): string {
      match this
      case Loaded => "loaded"
      case Started => "started"
      case Shutdown => "shutdown"
      case Unloaded => "unloaded"
    }
  }

  datatype HookTraceStatus = Declared | Resolved | Installed | Off {
    function AsStr(): string {
      match this
      case Declared => "declared"
      case Resolved => "resolved"
      case Installed => "installed"
      case Off => "disabled"
    }
  }

  datatype HookTraceMode = Disabled | Shadow | Active {
    function AsStr(): string {
      match this
      case Disabled => "disabled"
      case Shadow => "shadow"
      case Active => "active"
    }
  }

  datatype NetTraceDirection = Incoming | Outgoing {
    function AsStr(): string { if Incoming? then "incoming" else "outgoing" }
  }

  datatype NetRouteKind = NoInterest | FastOnly | SerializedOnly | FastAndSerialized {
    function AsStr(): string {
      match this
      case NoInterest => "no_interest"
      case FastOnly => "fast_only"
      case SerializedOnly => "serialized_only"
      case FastAndSerialized => "fast_and_serialized"
    }
  }

  datatype UsercmdRouteKind = NoWork | CountOnly | FastRead | FullProtobuf | FastAndFull {
    function AsStr(): string {
      match this
      case NoWork => "no_work"
      case CountOnly => "count_only"
      case FastRead => "fast_read"
      case FullProtobuf => "full_protobuf"
      case FastAndFull => "fast_and_full"
    }
  }

  datatype SubscriptionAction = Added | Removed {
    function AsStr(): string { if Added? then "added" else "removed" }
  }

  datatype TraceEvent =
    | Runtime(phase: RuntimePhase, abiVersion: U32)
    | HookStatus(hook: string, status: HookTraceStatus, mode: HookTraceMode, reason: Option<string>)
    | NetRoute(direction: NetTraceDirection, endpointSlot: I32, msgId: I32, recipientMask: U64,
               userMessageType: Option<I32>, netRoute: NetRouteKind)
    | UsercmdRoute(slot: I32, commandCount: U32, mountMask: U32, fieldMask: U32, usercmdRoute: UsercmdRouteKind)
    | Subscription(plugin: string, surface: string, name: string, action: SubscriptionAction)

  /** What one line of a trace reports: the schema header or an event. */
  datatype Item = Schema(version: U32) | Event(event: TraceEvent)

  datatype Line = Line(sequence: U64, item: Item)

  // ---------------------------------------------------------------- records as fields

  function TextField(name: string, text: string): Field { Field(name, Text(text)) }

  function NumberField(name: string, n: int): Field { Field(name, Number(n)) }

  function OptionalText(v: Option<string>): Value { if v.None? then Null else Text(v.value) }

  function OptionalNumber(v: Option<I32>): Value { if v.None? then Null else Number(v.value) }

  function EventFields(e: TraceEvent): seq<Field> {
    match e
    case Runtime(phase, abiVersion) =>
      [TextField("type", "runtime"), TextField("phase", phase.AsStr()), NumberField("abi_version", abiVersion)]
    case HookStatus(hook, status, mode, reason) =>
      [TextField("type", "hook_status"), TextField("hook", hook), TextField("status", status.AsStr()),
       TextField("mode", mode.AsStr()), Field("reason", OptionalText(reason))]
    case NetRoute(direction, endpointSlot, msgId, recipientMask, userMessageType, route) =>
      [TextField("type", "net_route"), TextField("direction", direction.AsStr()),
       NumberField("endpoint_slot", endpointSlot), NumberField("msg_id", msgId),
       NumberField("recipient_mask", recipientMask),
       Field("user_message_type", OptionalNumber(userMessageType)), TextField("route", route.AsStr())]
    case UsercmdRoute(slot, commandCount, mountMask, fieldMask, route) =>
      [TextField("type", "usercmd_route"), NumberField("slot", slot), NumberField("command_count", commandCount),
       NumberField("mount_mask", mountMask), NumberField("field_mask", fieldMask),
       TextField("route", route.AsStr())]
    case Subscription(plugin, surface, name, action) =>
      [TextField("type", "subscription"), TextField("plugin", plugin), TextField("surface", surface),
       TextField("name", name), TextField("action", action.AsStr())]
  }

  function ItemFields(item: Item): seq<Field> {
    match item
    case Schema(version) => [TextField("type", "schema"), NumberField("schema_version", version)]
    case Event(event) => EventFields(event)
  }

  function LineFields(line: Line): seq<Field> {
    [NumberField("seq", line.sequence)] + ItemFields(line.item)
  }

  function PrintLine(line: Line): string { PrintObject(LineFields(line)) }

  // ---------------------------------------------------------------- fields as records

  function TextAt(fields: seq<Field>, i: nat): string {
    if i < |fields| && fields[i].value.Text? then fields[i].value.text else ""
  }

  function NumberAt(fields: seq<Field>, i: nat): int {
    if i < |fields| && fields[i].value.Number? then fields[i].value.number else 0
  }

  function AsU32(n: int): U32 { if 0 <= n < 0x1_0000_0000 then n else 0 }
  function AsU64(n: int): U64 { if 0 <= n < 0x1_0000_0000_0000_0000 then n else 0 }
  function AsI32(n: int): I32 { if -0x8000_0000 <= n < 0x8000_0000 then n else 0 }

  function PhaseOf(t: string): RuntimePhase {
    if t == "loaded" then Loaded else if t == "started" then Started
    else if t == "shutdown" then Shutdown else Unloaded
  }

  function StatusOf(t: string): HookTraceStatus {
    if t == "declared" then Declared else if t == "resolved" then Resolved
    else if t == "installed" then Installed else Off
  }

  function ModeOf(t: string): HookTraceMode {
    if t == "disabled" then Disabled else if t == "shadow" then Shadow else Active
  }

  function NetRouteOf(t: string): NetRouteKind {
    if t == "no_interest" then NoInterest else if t == "fast_only" then FastOnly
    else if t == "serialized_only" then SerializedOnly else FastAndSerialized
  }

  function UsercmdRouteOf(t: string): UsercmdRouteKind {
    if t == "no_work" then NoWork else if t == "count_only" then CountOnly
    else if t == "fast_read" then FastRead else if t == "full_protobuf" then FullProtobuf else FastAndFull
  }

  function DirectionOf(t: string): NetTraceDirection { if t == "incoming" then Incoming else Outgoing }

  function ActionOf(t: string): SubscriptionAction { if t == "added" then Added else Removed }

  function OptionalTextAt(fields: seq<Field>, i: nat): Option<string> {
    if i < |fields| && fields[i].value.Text? then Some(fields[i].value.text) else None
  }

  function OptionalNumberAt(fields: seq<Field>, i: nat): Option<I32> {
    if i < |fields| && fields[i].value.Number? then Some(AsI32(fields[i].value.number)) else None
  }

  function GuessHookStatus(fields: seq<Field>): TraceEvent {
    HookStatus(TextAt(fields, 1), StatusOf(TextAt(fields, 2)), ModeOf(TextAt(fields, 3)), OptionalTextAt(fields, 4))
  }

  function GuessNetRoute(fields: seq<Field>): TraceEvent {
    NetRoute(DirectionOf(TextAt(fields, 1)), AsI32(NumberAt(fields, 2)), AsI32(NumberAt(fields, 3)),
             AsU64(NumberAt(fields, 4)), OptionalNumberAt(fields, 5), NetRouteOf(TextAt(fields, 6)))
  }

  function GuessUsercmdRoute(fields: seq<Field>): TraceEvent {
    UsercmdRoute(AsI32(NumberAt(fields, 1)), AsU32(NumberAt(fields, 2)), AsU32(NumberAt(fields, 3)),
                 AsU32(NumberAt(fields, 4)), UsercmdRouteOf(TextAt(fields, 5)))
  }

  function GuessSubscription(fields: seq<Field>): TraceEvent {
    Subscription(TextAt(fields, 1), TextAt(fields, 2), TextAt(fields, 3), ActionOf(TextAt(fields, 4)))
  }

  /** The only item the fields could be of; `ReadItem` checks that it is. */
  function Guess(fields: seq<Field>): Item {
    var kind := TextAt(fields, 0);
    if kind == "schema" then Schema(AsU32(NumberAt(fields, 1)))
    else if kind == "runtime" then Event(Runtime(PhaseOf(TextAt(fields, 1)), AsU32(NumberAt(fields, 2))))
    else if kind == "hook_status" then Event(GuessHookStatus(fields))
    else if kind == "net_route" then Event(GuessNetRoute(fields))
    else if kind == "usercmd_route" then Event(GuessUsercmdRoute(fields))
    else Event(GuessSubscription(fields))
  }

  function ReadItem(fields: seq<Field>): Option<Item> {
    var item := Guess(fields);
    if ItemFields(item) == fields then Some(item) else None
  }

  /** A line of a trace, from its text alone. */
  function ReadLine(text: string): Option<Line> {
    var o := ReadObject(text);
    if o.None? || |o.value| == 0 then None
    else
      var sequence, item := AsU64(NumberAt(o.value, 0)), ReadItem(o.value[1..]);
      if item.None? || o.value[0] != NumberField("seq", sequence) then None
      else Some(Line(sequence, item.value))
  }

  // ---------------------------------------------------------------- round trip

  lemma PhaseCode(p: RuntimePhase)
    ensures PhaseOf(p.AsStr()) == p
  {
    if p.Unloaded? { assert "unloaded"[0] != "shutdown"[0]; }
    if p.Started? { assert "started"[0] != "loaded"[0]; }
  }

  lemma StatusCode(s: HookTraceStatus)
    ensures StatusOf(s.AsStr()) == s
  {
    var t := s.AsStr();
    if s.Resolved? { assert t[0] != "declared"[0]; }
    if s.Off? { assert t[1] != "declared"[1] && t[0] != "resolved"[0]; }
  }

  lemma RouteCodes(n: NetRouteKind, u: UsercmdRouteKind)
    ensures NetRouteOf(n.AsStr()) == n
    ensures UsercmdRouteOf(u.AsStr()) == u
  {
    if u.FastAndFull? { assert u.AsStr()[1] != "full_protobuf"[1]; }
  }

  lemma GuessPieces(e: TraceEvent)
    ensures e.Runtime? ==> PhaseOf(e.phase.AsStr()) == e.phase
    ensures e.HookStatus? ==> GuessHookStatus(EventFields(e)) == e
    ensures e.UsercmdRoute? ==> GuessUsercmdRoute(EventFields(e)) == e
    ensures e.Subscription? ==> GuessSubscription(EventFields(e)) == e
  {
    match e
    case Runtime(phase, _) => PhaseCode(phase);
    case HookStatus(_, status, _, _) => StatusCode(status);
    case NetRoute(_, _, _, _, _, _) =>
    case UsercmdRoute(_, _, _, _, route) => RouteCodes(NoInterest, route);
    case Subscription(_, _, _, _) =>
  }

  lemma GuessNetPiece(e: TraceEvent)
    requires e.NetRoute?
    ensures GuessNetRoute(EventFields(e)) == e
  {
    RouteCodes(e.netRoute, NoWork);
  }

  lemma GuessItem(item: Item)
    ensures Guess(ItemFields(item)) == item
  {
    if item.Event? {
      var e := item.event;
      if e.NetRoute? { GuessNetPiece(e); } else { GuessPieces(e); }
      assert |TextAt(EventFields(e), 0)| == match e
        case Runtime(_, _) => 7
        case HookStatus(_, _, _, _) => 11
        case NetRoute(_, _, _, _, _, _) => 9
        case UsercmdRoute(_, _, _, _, _) => 13
        case Subscription(_, _, _, _) => 12;
    }
  }

  /** Reading a printed line gives the line back: every sequence number, header, event kind, string
      and integer. */
  lemma LineRoundTrip(line: Line)
    ensures ReadLine(PrintLine(line)) == Some(line)
  {
    var fields := LineFields(line);
    ObjectRoundTrip(fields);
    assert fields[1..] == ItemFields(line.item);
    GuessItem(line.item);
  }

  /** A text is read as a line only if it holds exactly the fields of that line, in their order. */
  lemma ReadLineExactly(text: string, line: Line)
    ensures ReadLine(text) == Some(line) <==> ReadObject(text) == Some(LineFields(line))
  {
    GuessItem(line.item);
    assert LineFields(line)[1..] == ItemFields(line.item);
    if ReadLine(text) == Some(line) {
      var fields := ReadObject(text).value;
      assert fields == [fields[0]] + fields[1..];
    }
  }

  lemma LineIsClean(line: Line)
    ensures Clean(PrintLine(line)) && PrintLine(line) != []
  {
    ObjectIsClean(LineFields(line));
  }
}
