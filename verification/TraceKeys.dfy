/** What a line says to a reader that looks values up by their keys. */
module TraceKeys {
  import opened Common
  import opened JsonText
  import opened TraceRecords

  /** The value under every key; nothing if a key occurs twice. */
  function ObjectOf(fields: seq<Field>): Option<map<string, Value>> {
    if |fields| == 0 then Some(map[])
    else
      var before, last := ObjectOf(fields[..|fields| - 1]), fields[|fields| - 1];
      if before.None? || last.name in before.value then None else Some(before.value[last.name := last.value])
  }

  function ReadByKey(text: string): Option<map<string, Value>> {
    var fields := ReadObject(text);
    if fields.None? then None else ObjectOf(fields.value)
  }

  lemma NextKey(fields: seq<Field>, k: nat)
    requires k < |fields| && ObjectOf(fields[..k]).Some? && fields[k].name !in ObjectOf(fields[..k]).value
    ensures ObjectOf(fields[..k + 1]) == Some(ObjectOf(fields[..k]).value[fields[k].name := fields[k].value])
  {
    assert fields[..k + 1][..k] == fields[..k];
  }

  /** Every key of every kind of line, with the very value of the record that stands under it. */
  function Said(line: Line): map<string, Value> {
    var sequence := line.sequence;
    match line.item
    case Schema(version) =>
      map["seq" := Number(sequence), "type" := Text("schema"), "schema_version" := Number(version)]
    case Event(e) =>
      match e
      case Runtime(_, _) =>
        map["seq" := Number(sequence),
            "type" := Text("runtime"),
            "phase" := Text(e.phase.AsStr()),
            "abi_version" := Number(e.abiVersion)]
      case HookStatus(_, _, _, _) =>
        map["seq" := Number(sequence),
            "type" := Text("hook_status"),
            "hook" := Text(e.hook),
            "status" := Text(e.status.AsStr()),
            "mode" := Text(e.mode.AsStr()),
            "reason" := if e.reason.Some? then Text(e.reason.value) else Null]
      case NetRoute(_, _, _, _, _, _) =>
        map["seq" := Number(sequence),
            "type" := Text("net_route"),
            "direction" := Text(e.direction.AsStr()),
            "endpoint_slot" := Number(e.endpointSlot),
            "msg_id" := Number(e.msgId),
            "recipient_mask" := Number(e.recipientMask),
            "user_message_type" := if e.userMessageType.Some? then Number(e.userMessageType.value) else Null,
            "route" := Text(e.netRoute.AsStr())]
      case UsercmdRoute(_, _, _, _, _) =>
        map["seq" := Number(sequence),
            "type" := Text("usercmd_route"),
            "slot" := Number(e.slot),
            "command_count" := Number(e.commandCount),
            "mount_mask" := Number(e.mountMask),
            "field_mask" := Number(e.fieldMask),
            "route" := Text(e.usercmdRoute.AsStr())]
      case Subscription(_, _, _, _) =>
        map["seq" := Number(sequence),
            "type" := Text("subscription"),
            "plugin" := Text(e.plugin),
            "surface" := Text(e.surface),
            "name" := Text(e.name),
            "action" := Text(e.action.AsStr())]
  }

  /** The texts of the enumerations. */
  lemma Texts()
    ensures RuntimePhase.Loaded.AsStr() == "loaded" && RuntimePhase.Started.AsStr() == "started"
    ensures RuntimePhase.Shutdown.AsStr() == "shutdown" && RuntimePhase.Unloaded.AsStr() == "unloaded"
    ensures HookTraceStatus.Declared.AsStr() == "declared" && HookTraceStatus.Resolved.AsStr() == "resolved"
    ensures HookTraceStatus.Installed.AsStr() == "installed" && HookTraceStatus.Off.AsStr() == "disabled"
    ensures HookTraceMode.Disabled.AsStr() == "disabled" && HookTraceMode.Shadow.AsStr() == "shadow"
    ensures HookTraceMode.Active.AsStr() == "active"
    ensures NetTraceDirection.Incoming.AsStr() == "incoming" && NetTraceDirection.Outgoing.AsStr() == "outgoing"
    ensures NetRouteKind.NoInterest.AsStr() == "no_interest" && NetRouteKind.FastOnly.AsStr() == "fast_only"
    ensures NetRouteKind.SerializedOnly.AsStr() == "serialized_only"
    ensures NetRouteKind.FastAndSerialized.AsStr() == "fast_and_serialized"
    ensures UsercmdRouteKind.NoWork.AsStr() == "no_work" && UsercmdRouteKind.CountOnly.AsStr() == "count_only"
    ensures UsercmdRouteKind.FastRead.AsStr() == "fast_read" && UsercmdRouteKind.FullProtobuf.AsStr() == "full_protobuf"
    ensures UsercmdRouteKind.FastAndFull.AsStr() == "fast_and_full"
    ensures SubscriptionAction.Added.AsStr() == "added" && SubscriptionAction.Removed.AsStr() == "removed"
  {
  }

  /** Keys that have one length differ somewhere. */
  lemma KeysDiffer()
    ensures "hook" != "type" && "mode" != "type" && "mode" != "hook" && "slot" != "type" && "name" != "type"
    ensures "status" != "reason" && "plugin" != "action" && "mount_mask" != "field_mask"
  {
    assert "hook"[0] != "type"[0] && "mode"[0] != "type"[0] && "mode"[0] != "hook"[0];
    assert "slot"[0] != "type"[0] && "name"[0] != "type"[0] && "status"[0] != "reason"[0];
    assert "plugin"[0] != "action"[0] && "mount_mask"[0] != "field_mask"[0];
  }

  lemma SchemaSays(line: Line)
    requires line.item.Schema?
    ensures ObjectOf(LineFields(line)) == Some(Said(line))
  {
    hide ObjectOf;
    KeysDiffer();
    var fields := LineFields(line);
    NoKeys(fields);
    NextKey(fields, 0);
    NextKey(fields, 1);
    NextKey(fields, 2);
    assert fields[..3] == fields;
  }

  lemma RuntimeSays(line: Line)
    requires line.item.Event? && line.item.event.Runtime?
    ensures ObjectOf(LineFields(line)) == Some(Said(line))
  {
    hide ObjectOf;
    KeysDiffer();
    var fields := LineFields(line);
    NoKeys(fields);
    NextKey(fields, 0);
    NextKey(fields, 1);
    NextKey(fields, 2);
    NextKey(fields, 3);
    assert fields[..4] == fields;
  }

  lemma HookStatusSays(line: Line)
    requires line.item.Event? && line.item.event.HookStatus?
    ensures ObjectOf(LineFields(line)) == Some(Said(line))
  {
    hide ObjectOf;
    KeysDiffer();
    var fields := LineFields(line);
    NoKeys(fields);
    NextKey(fields, 0);
    NextKey(fields, 1);
    NextKey(fields, 2);
    NextKey(fields, 3);
    NextKey(fields, 4);
    NextKey(fields, 5);
    assert fields[..6] == fields;
  }

  lemma NetRouteSays(line: Line)
    requires line.item.Event? && line.item.event.NetRoute?
    ensures ObjectOf(LineFields(line)) == Some(Said(line))
  {
    hide ObjectOf;
    KeysDiffer();
    var fields := LineFields(line);
    NoKeys(fields);
    NextKey(fields, 0);
    NextKey(fields, 1);
    NextKey(fields, 2);
    NextKey(fields, 3);
    NextKey(fields, 4);
    NextKey(fields, 5);
    NextKey(fields, 6);
    NextKey(fields, 7);
    assert fields[..8] == fields;
  }

  lemma UsercmdRouteSays(line: Line)
    requires line.item.Event? && line.item.event.UsercmdRoute?
    ensures ObjectOf(LineFields(line)) == Some(Said(line))
  {
    hide ObjectOf;
    KeysDiffer();
    var fields := LineFields(line);
    NoKeys(fields);
    NextKey(fields, 0);
    NextKey(fields, 1);
    NextKey(fields, 2);
    NextKey(fields, 3);
    NextKey(fields, 4);
    NextKey(fields, 5);
    NextKey(fields, 6);
    assert fields[..7] == fields;
  }

  lemma SubscriptionSays(line: Line)
    requires line.item.Event? && line.item.event.Subscription?
    ensures ObjectOf(LineFields(line)) == Some(Said(line))
  {
    hide ObjectOf;
    KeysDiffer();
    var fields := LineFields(line);
    NoKeys(fields);
    NextKey(fields, 0);
    NextKey(fields, 1);
    NextKey(fields, 2);
    NextKey(fields, 3);
    NextKey(fields, 4);
    NextKey(fields, 5);
    assert fields[..6] == fields;
  }

  lemma NoKeys(fields: seq<Field>)
    ensures ObjectOf(fields[..0]) == Some(map[])
  {
  }

  /** Whoever looks the values of a printed line up by their keys finds under every key the very field of
      the record that it names, whatever the order, and no other keys. */
  lemma LineSays(line: Line)
    ensures ReadByKey(PrintLine(line)) == Some(Said(line))
  {
    ObjectRoundTrip(LineFields(line));
    hide ObjectOf, LineFields, PrintObject, Said;
    match line.item
    case Schema(_) => SchemaSays(line);
    case Event(e) =>
      match e
      case Runtime(_, _) => RuntimeSays(line);
      case HookStatus(_, _, _, _) => HookStatusSays(line);
      case NetRoute(_, _, _, _, _, _) => NetRouteSays(line);
      case UsercmdRoute(_, _, _, _, _) => UsercmdRouteSays(line);
      case Subscription(_, _, _, _) => SubscriptionSays(line);
  }
}
