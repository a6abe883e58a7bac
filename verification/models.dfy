/**
 * The control-channel codec of client/x2webrtc/models.py.
 *
 * A batch of input events travels as `{"events": [e1, e2, ...]}` where every
 * element is the envelope `{"kind": tag, "event": fields}` and the tag names
 * the event's class in `EVENT_TYPE_MAP`. Decoding is two-phase: the envelope is
 * read leniently to find the tag, an unknown tag is rejected, and the fields
 * are then decoded strictly into the tagged class. The outer object is strict
 * too. Field checks follow the library the source decodes with (dacite):
 * undeclared keys first, then each declared field in declaration order.
 */
module Models {
  import opened Wrappers
  import opened Json

  /** `MouseButtonKind`, an `IntEnum` with values 0, 1, 2. */
  datatype MouseButtonKind = LeftButton | MiddleButton | RightButton

  /** `ButtonEventKind`, an `IntEnum` with values 0, 1. */
  datatype ButtonEventKind = ButtonDown | ButtonUp

  function ButtonValue(b: MouseButtonKind): int {
    match b
    case LeftButton => 0
    case MiddleButton => 1
    case RightButton => 2
  }

  function EventKindValue(k: ButtonEventKind): int {
    match k
    case ButtonDown => 0
    case ButtonUp => 1
  }

  /** `MouseButtonKind(v)`: the member whose value is `v`, if any. */
  function ButtonFromValue(v: int): (r: Option<MouseButtonKind>)
    ensures r.Some? <==> 0 <= v <= 2
    ensures r.Some? ==> ButtonValue(r.value) == v
  {
    if v == 0 then Some(LeftButton)
    else if v == 1 then Some(MiddleButton)
    else if v == 2 then Some(RightButton)
    else None
  }

  /** `ButtonEventKind(v)`: the member whose value is `v`, if any. */
  function EventKindFromValue(v: int): (r: Option<ButtonEventKind>)
    ensures r.Some? <==> 0 <= v <= 1
    ensures r.Some? ==> EventKindValue(r.value) == v
  {
    if v == 0 then Some(ButtonDown)
    else if v == 1 then Some(ButtonUp)
    else None
  }

  datatype Event =
    | MouseMoveEvent(x: int, y: int)
    | MouseButtonEvent(buttonKind: MouseButtonKind, eventKind: ButtonEventKind)

  datatype ScreenEvents = ScreenEvents(events: seq<Event>)

  /** The Python classes an event can be an instance of. */
  datatype EventClass = MouseMoveClass | MouseButtonClass

  function ClassOf(e: Event): EventClass {
    match e
    case MouseMoveEvent(_, _) => MouseMoveClass
    case MouseButtonEvent(_, _) => MouseButtonClass
  }

  /** A type map, as a dictionary's items in insertion order. */
  type TypeMap = seq<(string, EventClass)>

  const EVENT_TYPE_MAP: TypeMap := [("move", MouseMoveClass), ("mouse-button", MouseButtonClass)]

  /** A dictionary's keys are distinct. */
  predicate DistinctTags(typeMap: TypeMap) {
    forall i, j :: 0 <= i < j < |typeMap| ==> typeMap[i].0 != typeMap[j].0
  }

  datatype Error =
    | NotAMapping
    | MissingValue(field: string)
    | WrongType(field: string)
    | UnexpectedData(keys: set<string>)
    | UnknownType(kind: string)
    | InvalidEnumValue(field: string)
    | NoTypeMapEntry(cls: EventClass)

  /** Entry `i` is the first whose key is `kind`. */
  predicate FirstWithKey(typeMap: TypeMap, i: int, kind: string) {
    0 <= i < |typeMap| && typeMap[i].0 == kind && forall j :: 0 <= j < i ==> typeMap[j].0 != kind
  }

  /** Entry `i` is the first whose class is `cls`. */
  predicate FirstWithClass(typeMap: TypeMap, i: int, cls: EventClass) {
    0 <= i < |typeMap| && typeMap[i].1 == cls && forall j :: 0 <= j < i ==> typeMap[j].1 != cls
  }

  lemma FirstWithKeyShift(typeMap: TypeMap, i: int, kind: string)
    requires typeMap != [] && typeMap[0].0 != kind && FirstWithKey(typeMap[1..], i, kind)
    ensures FirstWithKey(typeMap, i + 1, kind) && typeMap[i + 1] == typeMap[1..][i]
  {
    assert forall j :: 1 <= j < i + 1 ==> typeMap[j] == typeMap[1..][j - 1];
  }

  lemma FirstWithClassShift(typeMap: TypeMap, i: int, cls: EventClass)
    requires typeMap != [] && typeMap[0].1 != cls && FirstWithClass(typeMap[1..], i, cls)
    ensures FirstWithClass(typeMap, i + 1, cls) && typeMap[i + 1] == typeMap[1..][i]
  {
    assert forall j :: 1 <= j < i + 1 ==> typeMap[j] == typeMap[1..][j - 1];
  }

  /** `type_map[kind]` when `kind in type_map`: the class of the first entry with that key. */
  function LookupType(typeMap: TypeMap, kind: string): (r: Option<EventClass>)
    ensures r.Some? <==> exists i :: 0 <= i < |typeMap| && typeMap[i].0 == kind
    ensures r.Some? ==> (kind, r.value) in typeMap
    ensures r.Some? ==> exists i :: FirstWithKey(typeMap, i, kind) && typeMap[i].1 == r.value
  {
    if typeMap == [] then None
    else if typeMap[0].0 == kind then
      assert FirstWithKey(typeMap, 0, kind);
      Some(typeMap[0].1)
    else
      var r := LookupType(typeMap[1..], kind);
      assert r.Some? ==> exists i :: FirstWithKey(typeMap, i, kind) && typeMap[i].1 == r.value by {
        if r.Some? {
          var i :| FirstWithKey(typeMap[1..], i, kind) && typeMap[1..][i].1 == r.value;
          FirstWithKeyShift(typeMap, i, kind);
        }
      }
      r
  }

  /** The search loop of `_to_event_type`: the key of the first entry whose class is `cls`. */
  function LookupTag(typeMap: TypeMap, cls: EventClass): (r: Option<string>)
    ensures r.Some? <==> exists i :: 0 <= i < |typeMap| && typeMap[i].1 == cls
    ensures r.Some? ==> (r.value, cls) in typeMap
    ensures r.Some? ==> exists i :: FirstWithClass(typeMap, i, cls) && typeMap[i].0 == r.value
  {
    if typeMap == [] then None
    else if typeMap[0].1 == cls then
      assert FirstWithClass(typeMap, 0, cls);
      Some(typeMap[0].0)
    else
      var r := LookupTag(typeMap[1..], cls);
      assert r.Some? ==> exists i :: FirstWithClass(typeMap, i, cls) && typeMap[i].0 == r.value by {
        if r.Some? {
          var i :| FirstWithClass(typeMap[1..], i, cls) && typeMap[1..][i].0 == r.value;
          FirstWithClassShift(typeMap, i, cls);
        }
      }
      r
  }

  /** In a map with distinct keys, the tag found for a class leads back to that class. */
  lemma {:induction false} TagLeadsBackToClass(typeMap: TypeMap, cls: EventClass)
    requires DistinctTags(typeMap)
    requires LookupTag(typeMap, cls).Some?
    ensures LookupType(typeMap, LookupTag(typeMap, cls).value) == Some(cls)
  {
    if typeMap[0].1 != cls {
      var tag := LookupTag(typeMap[1..], cls).value;
      assert (tag, cls) in typeMap[1..];
      assert typeMap[0].0 != tag by {
        var j :| 0 <= j < |typeMap[1..]| && typeMap[1..][j] == (tag, cls);
        assert typeMap[j + 1].0 == tag;
      }
      TagLeadsBackToClass(typeMap[1..], cls);
    }
  }

  /** The tags of `EVENT_TYPE_MAP`, looked up by exact class. */
  lemma EventTypeMapTags()
    ensures DistinctTags(EVENT_TYPE_MAP)
    ensures LookupTag(EVENT_TYPE_MAP, MouseMoveClass) == Some("move")
    ensures LookupTag(EVENT_TYPE_MAP, MouseButtonClass) == Some("mouse-button")
    ensures LookupType(EVENT_TYPE_MAP, "move") == Some(MouseMoveClass)
    ensures LookupType(EVENT_TYPE_MAP, "mouse-button") == Some(MouseButtonClass)
  {
  }

  // ---------------------------------------------------------------- encoding

  /** `dataclasses.asdict` of an event; enum members serialise as their values. */
  function AsDict(e: Event): Value {
    match e
    case MouseMoveEvent(x, y) =>
      JObject(map["x" := JInt(x), "y" := JInt(y)])
    case MouseButtonEvent(b, k) =>
      JObject(map["button_kind" := JInt(ButtonValue(b)), "event_kind" := JInt(EventKindValue(k))])
  }

  /** `asdict(_Event(kind, fields))`: the envelope of one event. */
  function Envelope(kind: string, fields: Value): Value {
    JObject(map["kind" := JString(kind), "event" := fields])
  }

  /** `_to_event_type`: wraps an event with the tag of its class, or fails if the map lacks it. */
  function ToEventType(e: Event, typeMap: TypeMap): (r: Result<Value, Error>)
    ensures r.Err? <==> LookupTag(typeMap, ClassOf(e)).None?
    ensures r.Err? ==> r.error == NoTypeMapEntry(ClassOf(e))
    ensures r.Ok? ==> r.value == Envelope(LookupTag(typeMap, ClassOf(e)).value, AsDict(e))
  {
    match LookupTag(typeMap, ClassOf(e))
    case None => Err(NoTypeMapEntry(ClassOf(e)))
    case Some(kind) => Ok(Envelope(kind, AsDict(e)))
  }

  /** Over `EVENT_TYPE_MAP`, an event is wrapped with `"move"` or `"mouse-button"` by its class. */
  lemma ShippedEnvelope(e: Event)
    ensures ToEventType(e, EVENT_TYPE_MAP) ==
      Ok(Envelope(if e.MouseMoveEvent? then "move" else "mouse-button", AsDict(e)))
  {
    EventTypeMapTags();
  }

  /** The list comprehension of `to_dict`: one envelope per event, in order. */
  function EncodeEvents(events: seq<Event>, typeMap: TypeMap): (r: Result<seq<Value>, Error>)
    ensures r.Ok? <==> forall i :: 0 <= i < |events| ==> ToEventType(events[i], typeMap).Ok?
    ensures r.Ok? ==> |r.value| == |events|
    ensures r.Ok? ==> forall i :: 0 <= i < |events| ==> Ok(r.value[i]) == ToEventType(events[i], typeMap)
  {
    if events == [] then Ok([])
    else
      var head :- ToEventType(events[0], typeMap);
      var tail :- EncodeEvents(events[1..], typeMap);
      assert forall i :: 1 <= i < |events| ==> events[i] == events[1..][i - 1];
      Ok([head] + tail)
  }

  /**
   * `to_dict`: never fails over the two event classes, and emits a single
   * `"events"` key holding one envelope per event, in order, each tagged
   * `"move"` or `"mouse-button"`.
   */
  function ToDict(data: ScreenEvents): (r: Result<Value, Error>)
    ensures r.Ok?
    ensures r.value.JObject? && r.value.fields.Keys == {"events"}
    ensures r.value.fields["events"].JArray?
    ensures var items := r.value.fields["events"].items;
      |items| == |data.events| &&
      forall i :: 0 <= i < |items| ==>
        items[i] == Envelope(if data.events[i].MouseMoveEvent? then "move" else "mouse-button", AsDict(data.events[i]))
  {
    var items := EncodeEvents(data.events, EVENT_TYPE_MAP);
    assert items.Ok? && forall i :: 0 <= i < |data.events| ==>
      items.value[i] == Envelope(if data.events[i].MouseMoveEvent? then "move" else "mouse-button", AsDict(data.events[i]))
    by {
      forall i | 0 <= i < |data.events|
        ensures ToEventType(data.events[i], EVENT_TYPE_MAP) ==
          Ok(Envelope(if data.events[i].MouseMoveEvent? then "move" else "mouse-button", AsDict(data.events[i])))
      {
        ShippedEnvelope(data.events[i]);
      }
    }
    Ok(JObject(map["events" := JArray(items.value)]))
  }

  // ---------------------------------------------------------------- decoding

  /** dacite's `isinstance(v, int)` check: booleans are integers in Python. */
  function IntField(v: Value): (r: Option<int>)
    ensures v.JInt? ==> r == Some(v.i)
    ensures v.JBool? ==> r == Some(if v.b then 1 else 0)
    ensures (v.JNull? || v.JFloat? || v.JString? || v.JArray? || v.JObject?) ==> r.None?
  {
    match v
    case JInt(i) => Some(i)
    case JBool(b) => Some(if b then 1 else 0)
    case _ => None
  }

  /**
   * The integer an `IntEnum(v)` call looks its member up by: an integer, a
   * boolean, or a float with an integral value (1.0 hashes and compares equal to 1).
   */
  function EnumLookupKey(v: Value): (r: Option<int>)
    ensures v.JInt? ==> r == Some(v.i)
    ensures v.JBool? ==> r == Some(if v.b then 1 else 0)
    ensures v.JFloat? ==> (r.Some? <==> v.f == v.f.Floor as real)
    ensures v.JFloat? && r.Some? ==> r.value as real == v.f
    ensures (v.JNull? || v.JString? || v.JArray? || v.JObject?) ==> r.None?
  {
    match v
    case JInt(i) => Some(i)
    case JBool(b) => Some(if b then 1 else 0)
    case JFloat(f) => if f == f.Floor as real then Some(f.Floor) else None
    case _ => None
  }

  function DecodeMouseMove(fields: map<string, Value>): Result<Event, Error> {
    var extra := fields.Keys - {"x", "y"};
    if extra != {} then Err(UnexpectedData(extra))
    else if "x" !in fields then Err(MissingValue("x"))
    else if IntField(fields["x"]).None? then Err(WrongType("x"))
    else if "y" !in fields then Err(MissingValue("y"))
    else if IntField(fields["y"]).None? then Err(WrongType("y"))
    else Ok(MouseMoveEvent(IntField(fields["x"]).value, IntField(fields["y"]).value))
  }

  function DecodeButtonKind(v: Value): Option<MouseButtonKind> {
    match EnumLookupKey(v)
    case None => None
    case Some(i) => ButtonFromValue(i)
  }

  function DecodeEventKind(v: Value): Option<ButtonEventKind> {
    match EnumLookupKey(v)
    case None => None
    case Some(i) => EventKindFromValue(i)
  }

  function DecodeMouseButton(fields: map<string, Value>): Result<Event, Error> {
    var extra := fields.Keys - {"button_kind", "event_kind"};
    if extra != {} then Err(UnexpectedData(extra))
    else if "button_kind" !in fields then Err(MissingValue("button_kind"))
    else if DecodeButtonKind(fields["button_kind"]).None? then Err(InvalidEnumValue("button_kind"))
    else if "event_kind" !in fields then Err(MissingValue("event_kind"))
    else if DecodeEventKind(fields["event_kind"]).None? then Err(InvalidEnumValue("event_kind"))
    else Ok(MouseButtonEvent(DecodeButtonKind(fields["button_kind"]).value, DecodeEventKind(fields["event_kind"]).value))
  }

  /** The strict second phase: decode the fields as the class the tag selected. */
  function DecodeAs(cls: EventClass, fields: map<string, Value>): (r: Result<Event, Error>)
    ensures r.Ok? ==> ClassOf(r.value) == cls
  {
    match cls
    case MouseMoveClass => DecodeMouseMove(fields)
    case MouseButtonClass => DecodeMouseButton(fields)
  }

  /** A mapping with a string `kind` and a mapping `event`: what the lenient first phase accepts. */
  predicate IsEnvelope(data: Value) {
    data.JObject? && "kind" in data.fields && data.fields["kind"].JString?
    && "event" in data.fields && data.fields["event"].JObject?
  }

  /**
   * `_parse_config`: read the envelope leniently (undeclared keys are ignored),
   * reject a tag the map does not know, then decode the fields strictly.
   */
  function ParseEvent(data: Value, typeMap: TypeMap): (r: Result<Event, Error>)
    ensures !data.JObject? ==> r == Err(NotAMapping)
    ensures r.Err? && r.error.UnknownType? <==> IsEnvelope(data) && LookupType(typeMap, data.fields["kind"].s).None?
    ensures IsEnvelope(data) && LookupType(typeMap, data.fields["kind"].s).Some? ==>
      r == DecodeAs(LookupType(typeMap, data.fields["kind"].s).value, data.fields["event"].fields)
    ensures r.Ok? ==> IsEnvelope(data) && LookupType(typeMap, data.fields["kind"].s) == Some(ClassOf(r.value))
  {
    match data
    case JObject(m) =>
      if "kind" !in m then Err(MissingValue("kind"))
      else if !m["kind"].JString? then Err(WrongType("kind"))
      else if "event" !in m then Err(MissingValue("event"))
      else if !m["event"].JObject? then Err(WrongType("event"))
      else
        var kind := m["kind"].s;
        (match LookupType(typeMap, kind)
         case None => Err(UnknownType(kind))
         case Some(cls) => DecodeAs(cls, m["event"].fields))
    case _ => Err(NotAMapping)
  }

  /** Decoding the `events` list element by element; the first failure wins. */
  function ParseEvents(items: seq<Value>, typeMap: TypeMap): (r: Result<seq<Event>, Error>)
    ensures r.Ok? <==> forall i :: 0 <= i < |items| ==> ParseEvent(items[i], typeMap).Ok?
    ensures r.Ok? ==> |r.value| == |items|
    ensures r.Ok? ==> forall i :: 0 <= i < |items| ==> ParseEvent(items[i], typeMap) == Ok(r.value[i])
  {
    if items == [] then Ok([])
    else
      var head :- ParseEvent(items[0], typeMap);
      var tail :- ParseEvents(items[1..], typeMap);
      assert forall i :: 1 <= i < |items| ==> items[i] == items[1..][i - 1];
      Ok([head] + tail)
  }

  /** `from_dict`: a strict object whose only key is `"events"`, a list of envelopes. */
  function FromDict(data: Value): (r: Result<ScreenEvents, Error>)
    ensures !data.JObject? ==> r == Err(NotAMapping)
    ensures data.JObject? && data.fields.Keys - {"events"} != {} ==> r == Err(UnexpectedData(data.fields.Keys - {"events"}))
    ensures r.Ok? ==> data.JObject? && data.fields.Keys == {"events"} && data.fields["events"].JArray?
    ensures r.Ok? ==> ParseEvents(data.fields["events"].items, EVENT_TYPE_MAP) == Ok(r.value.events)
    ensures data.JObject? && data.fields.Keys == {"events"} && data.fields["events"].JArray? ==>
      (r.Ok? <==> forall i :: 0 <= i < |data.fields["events"].items| ==> ParseEvent(data.fields["events"].items[i], EVENT_TYPE_MAP).Ok?)
  {
    match data
    case JObject(m) =>
      var extra := m.Keys - {"events"};
      if extra != {} then Err(UnexpectedData(extra))
      else if "events" !in m then Err(MissingValue("events"))
      else
        (match m["events"]
         case JArray(items) =>
           var events :- ParseEvents(items, EVENT_TYPE_MAP);
           Ok(ScreenEvents(events))
         case _ => Err(WrongType("events")))
    case _ => Err(NotAMapping)
  }

  // ---------------------------------------------------------------- laws

  /** The strict decode of an event's own fields, as its own class, gives the event back. */
  lemma FieldsRoundTrip(e: Event)
    ensures DecodeAs(ClassOf(e), AsDict(e).fields) == Ok(e)
  {
    match e
    case MouseMoveEvent(x, y) =>
      assert AsDict(e).fields.Keys == {"x", "y"};
    case MouseButtonEvent(b, k) =>
      assert AsDict(e).fields.Keys == {"button_kind", "event_kind"};
  }

  /** Every event decodes back from its own envelope. */
  lemma EventRoundTrip(e: Event)
    ensures ToEventType(e, EVENT_TYPE_MAP).Ok?
    ensures ParseEvent(ToEventType(e, EVENT_TYPE_MAP).value, EVENT_TYPE_MAP) == Ok(e)
  {
    EventTypeMapTags();
    var tag := LookupTag(EVENT_TYPE_MAP, ClassOf(e)).value;
    assert LookupType(EVENT_TYPE_MAP, tag) == Some(ClassOf(e));
    var env := Envelope(tag, AsDict(e));
    assert ToEventType(e, EVENT_TYPE_MAP) == Ok(env);
    assert IsEnvelope(env) && env.fields["kind"].s == tag && env.fields["event"] == AsDict(e);
    FieldsRoundTrip(e);
  }

  /** Round trip: `from_dict(to_dict(s)) == s` for every batch of events. */
  lemma RoundTrip(data: ScreenEvents)
    ensures ToDict(data).Ok?
    ensures FromDict(ToDict(data).value) == Ok(data)
  {
    var events := data.events;
    var encoded := EncodeEvents(events, EVENT_TYPE_MAP);
    forall i | 0 <= i < |events| ensures ToEventType(events[i], EVENT_TYPE_MAP).Ok? {
      EventRoundTrip(events[i]);
    }
    var items := encoded.value;
    forall i | 0 <= i < |items| ensures ParseEvent(items[i], EVENT_TYPE_MAP) == Ok(events[i]) {
      EventRoundTrip(events[i]);
    }
    var decoded := ParseEvents(items, EVENT_TYPE_MAP);
    assert decoded.value == events;
  }

  /** An envelope whose tag is not in the map fails with "unknown type", whatever its fields. */
  lemma UnknownKindRejected(m: map<string, Value>, kind: string)
    requires "kind" in m && m["kind"] == JString(kind)
    requires "event" in m && m["event"].JObject?
    requires kind != "move" && kind != "mouse-button"
    ensures ParseEvent(JObject(m), EVENT_TYPE_MAP) == Err(UnknownType(kind))
  {
  }

  /** The envelope is read leniently: a key other than "kind" and "event" changes nothing. */
  lemma EnvelopeIgnoresExtraKeys(m: map<string, Value>, key: string, v: Value, typeMap: TypeMap)
    requires key != "kind" && key != "event"
    ensures ParseEvent(JObject(m[key := v]), typeMap) == ParseEvent(JObject(m), typeMap)
  {
  }

  /** Decoding the fields is strict: an undeclared key rejects the event. */
  lemma PayloadIsStrict(cls: EventClass, fields: map<string, Value>, key: string)
    requires key in fields
    requires cls == MouseMoveClass ==> key != "x" && key != "y"
    requires cls == MouseButtonClass ==> key != "button_kind" && key != "event_kind"
    ensures DecodeAs(cls, fields).Err? && DecodeAs(cls, fields).error.UnexpectedData?
  {
    match cls
    case MouseMoveClass => assert key in fields.Keys - {"x", "y"};
    case MouseButtonClass => assert key in fields.Keys - {"button_kind", "event_kind"};
  }

  /** The outer object is strict: any key besides "events" rejects the whole message. */
  lemma OuterIsStrict(m: map<string, Value>, key: string)
    requires key in m && key != "events"
    ensures FromDict(JObject(m)).Err? && FromDict(JObject(m)).error.UnexpectedData?
  {
    assert key in m.Keys - {"events"};
  }

  /** One undecodable element rejects the whole message. */
  lemma BadElementRejectsMessage(items: seq<Value>, i: nat)
    requires i < |items| && ParseEvent(items[i], EVENT_TYPE_MAP).Err?
    ensures FromDict(JObject(map["events" := JArray(items)])).Err?
  {
    assert map["events" := JArray(items)].Keys - {"events"} == {};
  }

  /**
   * A button event decodes exactly when its two values name enum members:
   * 0 to 2 for the button and 0 to 1 for the direction.
   */
  lemma ButtonValuesInRange(fields: map<string, Value>, b: int, k: int)
    requires fields == map["button_kind" := JInt(b), "event_kind" := JInt(k)]
    ensures DecodeAs(MouseButtonClass, fields).Ok? <==> 0 <= b <= 2 && 0 <= k <= 1
    ensures DecodeAs(MouseButtonClass, fields).Ok? ==>
      ButtonValue(DecodeAs(MouseButtonClass, fields).value.buttonKind) == b &&
      EventKindValue(DecodeAs(MouseButtonClass, fields).value.eventKind) == k
  {
    assert fields.Keys == {"button_kind", "event_kind"};
  }
}
