/** A decoded MAVLink message as the inspector sees it, and the pure
    functions that classify and present it (src/message.rs). */
module Message {
  import opened Wrappers
  import opened Text

  /** Rust `u8`: system and component ids. */
  newtype Byte = x: int | 0 <= x < 256

  /** The terminal colours the inspector assigns. */
  datatype Color = Red | Green | Yellow | Blue | Magenta | Cyan

  /** `COLORS`: the palette an origin's colour is drawn from, in this order. */
  const Palette: seq<Color> := [Red, Green, Yellow, Blue, Magenta, Cyan]

  /** Capture time; carried along with a message, never interpreted. */
  datatype Timestamp = Timestamp(utcNanos: int)

  /** A received message: the header's system and component ids, the type
      name `message_name()` reports, the message's `Debug` rendering and the
      time it was captured. */
  datatype MavMsg = MavMsg(
    systemId: Byte,
    componentId: Byte,
    name: string,
    debug: string,
    timestamp: Timestamp)

  /** The smallest width Rust allows for `usize` is 16 bits. */
  const UsizeMinModulus: int := 0x1_0000

  /** The palette index `(system_id * 31 + component_id) % COLORS.len()`.
      Since 31 leaves remainder 1 modulo 6, it is the sum of the ids modulo 6. */
  function ColorIndex(systemId: Byte, componentId: Byte): (i: nat)
    ensures i < |Palette|
    ensures i == (systemId as int + componentId as int) % |Palette|
  {
    var sum := systemId as int + componentId as int;
    assert systemId as int * 31 + componentId as int == sum + 6 * (5 * systemId as int);
    (systemId as int * 31 + componentId as int) % |Palette|
  }

  /** Computed in `usize` from two `u8` values, the index expression cannot
      overflow even the narrowest `usize`. */
  lemma ColorIndexNoOverflow(systemId: Byte, componentId: Byte)
    ensures 0 <= systemId as int * 31 + componentId as int <= 255 * 32
    ensures 255 * 32 < UsizeMinModulus
  {
  }

  /** `MavMsg::color`: a palette colour that depends on the origin only. */
  function ColorOf(m: MavMsg): (c: Color)
    ensures c in Palette
    ensures c == Palette[(m.systemId as int + m.componentId as int) % 6]
  {
    Palette[ColorIndex(m.systemId, m.componentId)]
  }

  /** The message types `msg_color` highlights, as a lookup table. */
  const TypeColors: map<string, Color> := map[
    "HEARTBEAT" := Magenta,
    "MANUAL_CONTROL" := Green,
    "ATTITUDE" := Blue,
    "GLOBAL_POSITION_INT" := Blue]

  /** `MavMsg::msg_color`: the highlight colour of a message type, if it has one. */
  function MsgColor(name: string): (r: Option<Color>)
    ensures r == if name in TypeColors then Some(TypeColors[name]) else None
  {
    if name == "HEARTBEAT" then Some(Magenta)
    else if name == "MANUAL_CONTROL" then Some(Green)
    else if name == "ATTITUDE" || name == "GLOBAL_POSITION_INT" then Some(Blue)
    else None
  }

  /** Command protocol. */
  const CommandTypes: seq<string> :=
    ["COMMAND_INT", "COMMAND_LONG", "COMMAND_ACK", "COMMAND_CANCEL"]

  /** Mission protocol. */
  const MissionTypes: seq<string> := [
    "MISSION_ITEM", "MISSION_ITEM_INT", "MISSION_REQUEST", "MISSION_REQUEST_INT",
    "MISSION_REQUEST_LIST", "MISSION_REQUEST_PARTIAL_LIST", "MISSION_SET_CURRENT",
    "MISSION_WRITE_PARTIAL_LIST", "MISSION_COUNT", "MISSION_CLEAR_ALL", "MISSION_ACK"]

  /** Discrete `SET_*` messages. */
  const SetterTypes: seq<string> := ["SET_MODE", "SET_GPS_GLOBAL_ORIGIN", "SET_HOME_POSITION"]

  /** Parameter writes. */
  const ParamSetTypes: seq<string> := ["PARAM_SET", "PARAM_EXT_SET"]

  /** Safety. */
  const SafetyTypes: seq<string> := ["SAFETY_SET_ALLOWED_AREA"]

  /** The 21 event types, in the order the source lists them. */
  const EventTypeList: seq<string> :=
    CommandTypes + MissionTypes + SetterTypes + ParamSetTypes + SafetyTypes

  /** `MavMsg::is_event`: whether a message of this type is a one-off event
      (logged) rather than periodic state (kept as the latest value). */
  predicate IsEvent(name: string) {
    name in EventTypeList
  }

  /** A type is an event exactly when it belongs to one of the five groups:
      commands, missions, setters, parameter writes, safety. */
  lemma IsEventTypes(name: string)
    ensures IsEvent(name) <==>
      || name in CommandTypes || name in MissionTypes || name in SetterTypes
      || name in ParamSetTypes || name in SafetyTypes
  {
  }

  /** The highlighted types are all periodic, so they are kept in the stream table. */
  lemma HighlightedTypesAreStreamed(name: string)
    requires MsgColor(name).Some?
    ensures !IsEvent(name)
  {
    HighlightedNames(name);
    HighlightedNamesAreNotEvents(name);
  }

  /** The types `msg_color` highlights. */
  const HighlightedList: seq<string> := ["HEARTBEAT", "MANUAL_CONTROL", "ATTITUDE", "GLOBAL_POSITION_INT"]

  lemma HighlightedNames(name: string)
    requires MsgColor(name).Some?
    ensures name in HighlightedList
  {
  }

  lemma HighlightedNamesAreNotEvents(name: string)
    requires name in HighlightedList
    ensures name !in EventTypeList
  {
  }

  /** Where `fields` starts its slice: just after the first `{`, or at 0. */
  function SliceStart(debug: string): (start: nat)
    ensures start <= |debug|
    ensures '{' in debug ==> 0 < start && debug[start - 1] == '{' && '{' !in debug[..start - 1]
    ensures '{' !in debug ==> start == 0
  {
    if '{' in debug then IndexOf(debug, '{') + 1 else 0
  }

  /** Where `fields` ends its slice: at the last `}`, or at the end. */
  function SliceEnd(debug: string): (e: nat)
    ensures e <= |debug|
    ensures '}' in debug ==> e < |debug| && debug[e] == '}' && '}' !in debug[e + 1..]
    ensures '}' !in debug ==> e == |debug|
  {
    if '}' in debug then LastIndexOf(debug, '}') else |debug|
  }

  /** The slice `fields` takes is in order (otherwise the source's slice panics). */
  predicate HasFieldSlice(debug: string) {
    SliceStart(debug) <= SliceEnd(debug)
  }

  /** `MavMsg::fields`: the trimmed text between the first `{` and the last `}`
      of the message's `Debug` rendering. */
  function FieldsOf(debug: string): (r: string)
    requires HasFieldSlice(debug)
    ensures Trimmed(r)
    ensures '{' !in debug && '}' !in debug ==> r == Trim(debug)
  {
    var start, end := SliceStart(debug), SliceEnd(debug);
    assert '{' !in debug && '}' !in debug ==> start == 0 && end == |debug| && debug[start..end] == debug;
    Trim(debug[start..end])
  }

  /** With both braces present, `fields` is the trimmed text between the outermost ones. */
  lemma FieldsOfBraced(prefix: string, body: string, suffix: string)
    requires '{' !in prefix && '}' !in suffix
    ensures HasFieldSlice(prefix + "{" + body + "}" + suffix)
    ensures FieldsOf(prefix + "{" + body + "}" + suffix) == Trim(body)
  {
    BracedStart(prefix, body, suffix);
    BracedEnd(prefix, body, suffix);
    BracedBody(prefix, body, suffix);
    FieldsOfSlice(prefix + "{" + body + "}" + suffix, |prefix| + 1, |prefix| + 1 + |body|, body);
  }

  /** `fields` trims whatever lies between the two slice bounds. */
  lemma FieldsOfSlice(debug: string, start: nat, end: nat, body: string)
    requires SliceStart(debug) == start <= end == SliceEnd(debug) && debug[start..end] == body
    ensures HasFieldSlice(debug) && FieldsOf(debug) == Trim(body)
  {
  }

  /** The text between the braces is the slice just after the `{`. */
  lemma BracedBody(prefix: string, body: string, suffix: string)
    ensures (prefix + "{" + body + "}" + suffix)[|prefix| + 1..|prefix| + 1 + |body|] == body
  {
    var d := prefix + "{" + body + "}" + suffix;
    forall i | 0 <= i < |body| ensures d[|prefix| + 1 + i] == body[i] {
    }
  }

  lemma BracedStart(prefix: string, body: string, suffix: string)
    requires '{' !in prefix
    ensures SliceStart(prefix + "{" + body + "}" + suffix) == |prefix| + 1
  {
    var d := prefix + "{" + body + "}" + suffix;
    assert d == prefix + ['{'] + (body + "}" + suffix);
    IndexOfAt(prefix, '{', body + "}" + suffix);
  }

  lemma BracedEnd(prefix: string, body: string, suffix: string)
    requires '}' !in suffix
    ensures SliceEnd(prefix + "{" + body + "}" + suffix) == |prefix| + 1 + |body|
  {
    var d := prefix + "{" + body + "}" + suffix;
    assert d == (prefix + "{" + body) + ['}'] + suffix;
    LastIndexOfAt(prefix + "{" + body, '}', suffix);
  }

  /** Without a `{` the slice starts at the beginning. */
  lemma FieldsOfUnopened(body: string, suffix: string)
    requires '{' !in body + suffix && '}' !in suffix
    ensures HasFieldSlice(body + "}" + suffix)
    ensures FieldsOf(body + "}" + suffix) == Trim(body)
  {
    var d := body + "}" + suffix;
    assert d == body + ['}'] + suffix;
    LastIndexOfAt(body, '}', suffix);
    assert '{' !in d;
    assert SliceStart(d) == 0 && SliceEnd(d) == |body|;
    assert d[0..|body|] == body;
  }

  /** Without a `}` the slice runs to the end. */
  lemma FieldsOfUnclosed(prefix: string, body: string)
    requires '{' !in prefix && '}' !in prefix + body
    ensures HasFieldSlice(prefix + "{" + body)
    ensures FieldsOf(prefix + "{" + body) == Trim(body)
  {
    var d := prefix + "{" + body;
    assert d == prefix + ['{'] + body;
    IndexOfAt(prefix, '{', body);
    assert '}' !in d;
    assert SliceStart(d) == |prefix| + 1 && SliceEnd(d) == |d|;
    assert d[|prefix| + 1..|d|] == body;
  }
}
