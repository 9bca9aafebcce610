# mavsnark core, in Dafny

mavsnark is a terminal inspector for MAVLink traffic. Each decoded message
goes to the `Collector`:

- An **event** type (commands, mission protocol, `SET_*` setters, parameter
  writes, safety areas) is appended to an event log.
- Every other message goes to a **stream** table. The table has one row per
  (system id, component id, type) key and always shows the latest message of
  that key. A hash index finds a key's row.

The application keeps one scroll position per panel and lets the keyboard
move the active one.

This project models that core and proves what it promises:

- `usize.dfy`: the saturating `usize` arithmetic the viewports use.
- `text.dfy`: the parts of Rust's `str` API the core uses: `trim`, `find`,
  `rfind`, `split_once` and `split`. `trim` is built from its two halves,
  `trim_start` and `trim_end`; the core never calls those on their own.
- `message.rs` is modelled in `message.dfy`:
  - a message is its two ids, its type name, its `Debug` rendering and its
    timestamp;
  - the origin colour, the type colour and the event classification;
  - the brace slicing of `fields`.
- `entries.rs` is modelled in `entries.dfy`: the two row types and
  `parse_fields`, with its round trip against a renderer of `key: value`
  pairs.
- `collector.rs` is modelled in `collector.dfy`:
  - `push` on values: `Ingest`, with `Replay` for a sequence of pushes;
  - what any sequence of pushes leaves behind, stated without the collector,
    and proved for `Replay`;
  - the `Collector` class, whose fields are updated in place as the source
    does and are tied to `Replay` of the ghost history of pushes.
- `scroll.rs` is modelled in `scroll.dfy`: the selection viewport as a
  value with one function per operation, its invariants, the module's unit
  tests, and the `ScrollState` class.
- `app.rs` is modelled in `app.dfy`:
  - the panel-local `ScrollState`, as a value and as a class;
  - `Panel`;
  - the `App` class with `toggle_panel`, `active_scroll` and
    `active_total`;
  - the navigation keys applied through `active_scroll`.

## Model

| member | source | states |
|---|---|---|
| Text.LeadingWhitespace | src/entries.rs:10 | the length of the whitespace run `trim` removes at the front: every character before it is whitespace, the one at it is not |
| Text.TrailingWhitespace | src/entries.rs:10 | the length of the whitespace run `trim` removes at the back: every character after the cut is whitespace, the one before it is not |
| Text.LeadingWhitespaceIs | src/entries.rs:10 | the leading whitespace run is determined by the first non-whitespace character |
| Text.TrailingWhitespaceIs | src/entries.rs:10 | the trailing whitespace run is determined by the last non-whitespace character |
| Text.TrimStart | src/entries.rs:10 | the front half of `trim` never lengthens a string and leaves it starting with a non-whitespace character, or empty |
| Text.TrimEnd | src/entries.rs:10 | the back half of `trim` never lengthens a string and leaves it ending with a non-whitespace character, or empty |
| Text.Trim | src/entries.rs:10 | the result of `trim` has no whitespace at either end |
| Text.TrimIsSlice | src/entries.rs:10 | `trim` returns a contiguous slice of its input with only whitespace before and after it |
| Text.TrimKeepsCharacters | src/entries.rs:10 | `trim` introduces no character and drops only whitespace |
| Text.SliceKeepsNonWhitespace | src/entries.rs:10 | a slice that cuts only whitespace keeps every other character |
| Text.TrimOfTrimmed | src/entries.rs:15 | a string without whitespace at its ends is left unchanged by all three trims, so `trim` is idempotent |
| Text.TrimStartAround | src/entries.rs:10 | the front half of `trim` stops at the first non-whitespace character |
| Text.TrimEndAround | src/entries.rs:10 | the back half of `trim` stops at the last non-whitespace character |
| Text.TrimEndsCommute | src/entries.rs:10 | trimming the front then the back equals trimming the back then the front |
| Text.TrimAround | src/entries.rs:15 | trimming a string around a non-whitespace character trims its two sides separately |
| Text.TrimOfTrimStart | src/entries.rs:15 | trimming the front first does not change `trim` |
| Text.TrimOfTrimEnd | src/entries.rs:15 | trimming the back first does not change `trim` |
| Text.TrimAfterWhitespace | src/entries.rs:10 | a leading whitespace character does not change `trim` |
| Text.IndexOf | src/message.rs:51 | `find` returns the position of the first occurrence |
| Text.LastIndexOf | src/message.rs:52 | `rfind` returns the position of the last occurrence |
| Text.IndexOfAt | src/message.rs:51 | `find` stops at the first occurrence even when more follow |
| Text.LastIndexOfAt | src/message.rs:52 | `rfind` stops at the last occurrence even when more precede |
| Text.SplitOnce | src/entries.rs:14 | `split_once` succeeds exactly when the separator occurs; the parts and the separator rebuild the input, and the first part has no separator |
| Text.SplitOnceAt | src/entries.rs:14 | `split_once` splits at the first separator |
| Text.Split | src/entries.rs:8 | `split` returns at least one piece, no piece holds the separator, and joining the pieces gives back the input |
| Text.SplitCons | src/entries.rs:8 | a leading non-separator character joins the first piece |
| Text.SplitAround | src/entries.rs:8 | the pieces around a separator are the pieces of each side, in order |
| Text.SplitWithoutSeparator | src/entries.rs:8 | a string without the separator is a single piece |
| Text.SplitJoin | src/entries.rs:8 | `split` inverts joining pieces that hold no separator |
| Message.ColorIndex | src/message.rs:30-34 | the palette index is within the six-colour palette and equals the sum of the ids modulo 6 |
| Message.ColorIndexNoOverflow | src/message.rs:31-32 | the index expression, computed from two `u8` values, stays below 8161 and so fits even a 16-bit `usize` |
| Message.ColorOf | src/message.rs:30-34 | `color` is a palette colour that depends only on the system and component ids |
| Message.MsgColor | src/message.rs:36-43 | `msg_color` is Magenta for HEARTBEAT, Green for MANUAL_CONTROL, Blue for ATTITUDE and GLOBAL_POSITION_INT, and None for every other type |
| Message.IsEventTypes | src/message.rs:57-87 | `is_event` holds exactly for the listed command, mission, setter, parameter-write and safety types |
| Message.HighlightedTypesAreStreamed | src/message.rs:36-43 | every type `msg_color` highlights is not an event, so it is shown in the stream table |
| Message.HighlightedNames | src/message.rs:36-43 | only the four listed type names have a type colour |
| Message.HighlightedNamesAreNotEvents | src/message.rs:57-87 | none of the four highlighted type names is an event type |
| Message.SliceStart | src/message.rs:51 | without a `{` the slice starts at 0; otherwise it starts just after a `{` with no `{` before it |
| Message.SliceEnd | src/message.rs:52 | the `fields` slice ends at the last `}` (no `}` after it), or at the end of the rendering when there is none |
| Message.FieldsOf | src/message.rs:49-54 | `fields` has no whitespace at either end; without braces it is the trimmed rendering |
| Message.FieldsOfBraced | src/message.rs:49-54 | with a first `{` and a last `}`, `fields` is the trimmed text between them, even when it holds braces itself |
| Message.BracedStart | src/message.rs:51 | the slice starts just after the first `{` |
| Message.BracedEnd | src/message.rs:52 | the slice ends at the last `}` |
| Message.FieldsOfUnopened | src/message.rs:51 | without a `{` the slice starts at 0 |
| Message.FieldsOfUnclosed | src/message.rs:52 | without a `}` the slice runs to the end of the rendering |
| Entries.StreamEntry.ParsedFields | src/entries.rs:31-33 | `parsed_fields` of a stream row is `parse_fields` of its field text, so every pair is well formed |
| Entries.EventEntry.ParsedFields | src/entries.rs:68-70 | `parsed_fields` of an event row is `parse_fields` of its field text, so every pair is well formed |
| Entries.ParseSegment | src/entries.rs:9-16 | a segment yields a pair exactly when it contains a colon; both halves are trimmed and the key holds no colon |
| Entries.ParseSegmentCharacters | src/entries.rs:9-16 | a pair holds only characters of its segment |
| Entries.FilterMap | src/entries.rs:9-17 | `filter_map(...).collect()` returns at most as many items as it is given |
| Entries.FilterMapCons | src/entries.rs:9-17 | `filter_map` handles the first item, then the rest |
| Entries.FilterMapAppend | src/entries.rs:9-17 | `filter_map` over a concatenation is the concatenation of the results, in order |
| Entries.ParseFields | src/entries.rs:7-18 | `parse_fields` returns at most one pair per comma segment; every key and value is trimmed and comma-free, and no key has a colon |
| Entries.ParseSegmentsWellFormed | src/entries.rs:8-17 | pairs from comma-free segments are well formed |
| Entries.ParseFieldsAround | src/entries.rs:8-17 | output order follows segment order: the pairs before a comma come first |
| Entries.ParseFieldsSegment | src/entries.rs:10-14 | a segment yields its pair if it has a colon and nothing otherwise, so empty and blank segments yield nothing |
| Entries.ParseSegmentAtFirstColon | src/entries.rs:14-15 | a segment is split at its first colon only; the value keeps any later colons |
| Entries.ParseFieldsAfterSpace | src/entries.rs:10 | blanks before a segment do not change what it yields |
| Entries.ParseFormatField | src/entries.rs:7-18 | one `key: value` pair of the kind `parse_fields` returns reads back as itself |
| Entries.FormatFieldShape | src/entries.rs:14 | a rendered pair is the key, a colon and the spaced value, with no comma |
| Entries.ParseFormattedSegment | src/entries.rs:14-15 | a rendered pair's segment parses to the pair |
| Entries.ParseFieldsAroundSeparator | src/entries.rs:8-10 | a `, ` separator splits the pairs as a bare comma does |
| Entries.FormatFieldsCons | src/entries.rs:8 | rendered pairs are separated by `, ` |
| Entries.ParseFormatFields | src/entries.rs:7-18 | `parse_fields` reads back exactly the rendered pairs whenever each is of the kind it returns |
| Collector.KeyOf | src/collector.rs:108 | a stream row's key is the message's system id, component id and type name; the colour, fields and timestamp play no part |
| Collector.StreamEntryOf | src/collector.rs:117-125 | a new stream row carries the message's key and timestamp, its palette colour, its type colour and its trimmed `fields` |
| Collector.EventEntryOf | src/collector.rs:99-106 | an event row carries the same key, colours and fields as the stream row the message would make, without the timestamp |
| Collector.KeysDistinct | src/collector.rs:72-78 | under the index invariant no two stream rows share a key |
| Collector.Refresh | src/collector.rs:110-113 | refreshing a row takes colour, fields and timestamp from the new message and keeps its key and type colour |
| Collector.RefreshKeepsIndex | src/collector.rs:108-113 | overwriting a row with one of the same key keeps the index invariant |
| Collector.AppendKeepsIndex | src/collector.rs:114-126 | appending a row with a new key, indexed at the old length, keeps the index invariant |
| Collector.Ingest | src/collector.rs:89-128 | an event is appended to the log and nothing else changes; a known key's row alone is refreshed; a new key gets a row at the end, indexed at the old length; the index invariant is kept |
| Collector.Replay | src/collector.rs:81-128 | any sequence of pushes into a new collector leaves the index invariant holding |
| Collector.ReplaySnoc | src/collector.rs:89-128 | one more push is one more `Ingest` |
| Collector.FirstPush | src/collector.rs:114-126 | the position of the first stream push of a key, or -1 when there is none |
| Collector.LastPush | src/collector.rs:108-113 | the position of the latest stream push of a key, or -1 when there is none |
| Collector.StreamKeysPushed | src/collector.rs:107-126 | a key is among the pushed stream keys exactly when it has a first and a last push |
| Collector.StreamKeysSnoc | src/collector.rs:107-126 | a push adds its key to the pushed stream keys when it is not an event |
| Collector.PushesSnoc | src/collector.rs:107-126 | a push becomes its key's latest push, and its first push when the key is new |
| Collector.EventKeepsRows | src/collector.rs:98-106 | an event push keeps every row equal to its key's latest push |
| Collector.EventKeepsOrder | src/collector.rs:98-106 | an event push keeps the rows in first-push order |
| Collector.KnownKeepsRows | src/collector.rs:108-113 | refreshing a known key keeps every row equal to its key's latest push |
| Collector.KnownKeepsOrder | src/collector.rs:108-113 | refreshing a known key keeps the rows in first-push order |
| Collector.NewKeepsRows | src/collector.rs:114-126 | appending a new key keeps every row equal to its key's latest push |
| Collector.NewKeepsOrder | src/collector.rs:114-126 | appending a new key keeps the rows in first-push order |
| Collector.IndexKeysStep | src/collector.rs:107-126 | after a push the index holds exactly the stream keys pushed so far |
| Collector.IngestIndex | src/collector.rs:107-126 | only a push of a new stream key adds an index entry, at the old length; the table keeps as many rows as the index has keys |
| Collector.ReplayStream | src/collector.rs:89-132 | after any pushes the stream has one row per distinct stream key, in first-push order, each row built from its key's latest push, and the index holds exactly those keys |
| Collector.ReplayEvents | src/collector.rs:98-106 | after any pushes the event log is exactly the event messages, in arrival order |
| Collector.IngestEvents | src/collector.rs:98-106 | one push adds exactly its event row to the log, or nothing if it is not an event |
| Collector.EventLogSnoc | src/collector.rs:98-106 | the expected event log grows by the new message's event row, if it has one |
| Collector.Collector.constructor | src/collector.rs:81-87 | a new collector has an empty stream, index and event log and nothing pushed |
| Collector.Collector.Push | src/collector.rs:89-128 | `push` updates the fields exactly as `Ingest` does and keeps them equal to the replay of all pushes |
| Collector.Collector.LogEvent | src/collector.rs:98-106 | the event branch appends the message's event row |
| Collector.Collector.RefreshRow | src/collector.rs:108-113 | the known-key branch overwrites the indexed row's colour, fields and timestamp |
| Collector.Collector.AppendRow | src/collector.rs:114-126 | the new-key branch indexes the key at the old length and appends its row |
| Collector.Collector.Stream | src/collector.rs:130-132 | `stream` returns the table, which summarises all pushes |
| Collector.Collector.Events | src/collector.rs:134-136 | `events` returns the log, which is the event messages pushed, in order |
| Scroll.Viewport.SelectUp | src/scroll.rs:16-22 | `select_up` stops following and moves the selection up by exactly `amount` rows, or to row 0 when `amount` reaches past it; the window stays, or moves up to the selection when the selection went above it |
| Scroll.Viewport.SelectDown | src/scroll.rs:24-33 | with an empty list nothing changes; otherwise the selection moves down by `amount`, stopping at the last row, and stays on screen; the window only moves down, and either stays or moves just far enough that the selection is its last visible row; following is on exactly when the last row is selected |
| Scroll.Viewport.SelectTop | src/scroll.rs:35-39 | `select_top` puts both indices at 0 and stops following |
| Scroll.Viewport.SelectBottom | src/scroll.rs:41-48 | with an empty list nothing changes; otherwise the last row is selected, the window shows the last full screen, and following is on |
| Scroll.Viewport.Clamp | src/scroll.rs:50-58 | `clamp` brings both indices within the list and keeps the follow flag; each index is kept when it is already within, and otherwise becomes the last row (the selection) or the last full screen (the window) |
| Scroll.Viewport.AutoFollow | src/scroll.rs:60-65 | `auto_follow` is `select_bottom` while following a non-empty list and changes nothing otherwise |
| Scroll.SelectUpShows | src/scroll.rs:16-22 | `select_up` keeps the selection on screen |
| Scroll.SelectDownShows | src/scroll.rs:24-33 | `select_down` keeps a selection that names a row on screen |
| Scroll.SelectBottomShows | src/scroll.rs:41-48 | `select_bottom` keeps the selection on screen |
| Scroll.ClampShows | src/scroll.rs:50-58 | `clamp` keeps the selection on screen |
| Scroll.AutoFollowShows | src/scroll.rs:60-65 | `auto_follow` keeps the selection on screen |
| Scroll.OperationsStayWithin | src/scroll.rs:16-65 | every operation keeps both indices within a list of fixed length |
| Scroll.WithinGrows | src/scroll.rs:50-58 | indices within a list stay within it as it grows |
| Scroll.ClampIdempotent | src/scroll.rs:50-58 | clamping twice is clamping once |
| Scroll.AutoFollowIdempotent | src/scroll.rs:60-65 | following twice is following once |
| Scroll.SelectBottomFollowed | src/scroll.rs:41-65 | after `select_bottom`, `auto_follow` has nothing to do |
| Scroll.ScrollUpFromZero | src/scroll.rs:72-78 | `select_up(1)` from the initial state leaves both indices at 0 |
| Scroll.ScrollDownClampsToTotal | src/scroll.rs:80-85 | `select_down(100, 5, 10)` selects row 4 |
| Scroll.ScrollDownAdjustsOffset | src/scroll.rs:87-95 | five `select_down(1, 10, 3)` select row 5 and keep it on screen |
| Scroll.ScrollUpAdjustsOffset | src/scroll.rs:97-104 | `select_bottom(10, 3)` then `select_up(5)` selects row 4 with the window at or above it |
| Scroll.SelectTopResets | src/scroll.rs:106-113 | `select_top` after moving down puts both indices at 0 |
| Scroll.SelectBottomJumpsToEnd | src/scroll.rs:115-121 | `select_bottom(10, 3)` selects row 9 with the window at 7 |
| Scroll.AutoFollowWhenEnabled | src/scroll.rs:123-130 | following, `auto_follow(10, 5)` selects row 9 with the window at 5 |
| Scroll.AutoFollowNoopWhenDisabled | src/scroll.rs:132-139 | not following, `auto_follow(10, 5)` changes nothing |
| Scroll.ScrollState.constructor | src/scroll.rs:8-14 | `new` selects and shows row 0 and follows |
| Scroll.ScrollState.SelectUp | src/scroll.rs:16-22 | the fields become `Viewport.SelectUp` of the old ones |
| Scroll.ScrollState.SelectDown | src/scroll.rs:24-33 | the fields become `Viewport.SelectDown` of the old ones |
| Scroll.ScrollState.SelectTop | src/scroll.rs:35-39 | the fields become `Viewport.SelectTop` of the old ones |
| Scroll.ScrollState.SelectBottom | src/scroll.rs:41-48 | the fields become `Viewport.SelectBottom` of the old ones |
| Scroll.ScrollState.Clamp | src/scroll.rs:50-58 | the fields become `Viewport.Clamp` of the old ones |
| Scroll.ScrollState.AutoFollow | src/scroll.rs:60-65 | the fields become `Viewport.AutoFollow` of the old ones |
| App.Panel.Toggled | src/app.rs:88-93 | toggling always switches to the other panel |
| App.ToggleTwice | src/app.rs:88-93 | toggling twice returns to the starting panel |
| App.PanelView.ScrollUp | src/app.rs:35-38 | `scroll_up` stops following and moves the window up by exactly `amount` rows, or to row 0 when `amount` reaches past it |
| App.PanelView.ScrollDown | src/app.rs:40-48 | `scroll_down` moves the window down by `amount` up to the last full screen; reaching it turns following on, and nothing turns it off |
| App.PanelView.ScrollToTop | src/app.rs:50-53 | `scroll_to_top` shows row 0 and stops following |
| App.PanelView.ScrollToBottom | src/app.rs:55-58 | `scroll_to_bottom` follows and shows the last full screen |
| App.PanelView.AutoFollow | src/app.rs:60-64 | `auto_follow` is `scroll_to_bottom` while following and changes nothing otherwise |
| App.PanelView.Apply | src/app.rs:127-134 | Up, PageUp and `g` stop following and never move the window down; `G` follows; Down and PageDown never stop following; Down, PageDown and `G` leave the window within the list |
| App.ApplyKeepsFollowing | src/app.rs:35-58 | a following panel stays at the last full screen under every navigation key |
| App.AutoFollowFollows | src/app.rs:60-64 | after `auto_follow` a following panel shows the last full screen of the current list |
| App.ScrollDownUp | src/app.rs:35-48 | scrolling down and then up by the same amount returns to the same row when the way down was not cut short |
| App.ApplyStaysWithin | src/app.rs:35-58 | a window within its list stays within it as the list grows and under every navigation key |
| App.AutoFollowIdempotent | src/app.rs:60-64 | following twice is following once |
| App.ScrollState.constructor | src/app.rs:28-33 | `new` shows row 0 and follows |
| App.ScrollState.ScrollUp | src/app.rs:35-38 | the fields become `PanelView.ScrollUp` of the old ones |
| App.ScrollState.ScrollDown | src/app.rs:40-48 | the fields become `PanelView.ScrollDown` of the old ones |
| App.ScrollState.ScrollToTop | src/app.rs:50-53 | the fields become `PanelView.ScrollToTop` of the old ones |
| App.ScrollState.ScrollToBottom | src/app.rs:55-58 | the fields become `PanelView.ScrollToBottom` of the old ones |
| App.ScrollState.AutoFollow | src/app.rs:60-64 | the fields become `PanelView.AutoFollow` of the old ones |
| App.App.constructor | src/app.rs:75-82 | a new app has an empty collector, both panels at the top and following, and the stream panel active |
| App.App.Push | src/app.rs:84-86 | `push` hands the message to the collector, which ingests it |
| App.App.TogglePanel | src/app.rs:88-93 | the active panel becomes the other one |
| App.App.ActiveScroll | src/app.rs:95-100 | the scroll state of the active panel |
| App.App.ActiveTotal | src/app.rs:102-107 | the number of distinct stream keys pushed for the stream panel, and the number of events pushed for the event panel |
| App.App.Navigate | src/app.rs:127-134 | a navigation key applies its scroll operation to the active panel, with the active list's length, and leaves the other panel alone |

## Left out

- Scroll.Viewport.SelectDown: requires a visible row whenever the new selection is at or below the window's first row of a non-empty list. Only then does the source compute `visible - 1`, which underflows (a panic in debug builds) when `visible` is 0.
- Scroll.ScrollState.SelectDown: the same precondition as `Viewport.SelectDown`, for the same reason.
- Message.FieldsOf: requires the first `{` not to come after the last `}`. Otherwise the source's slice panics. A `Debug` rendering of a MAVLink message never has that shape.
- Collector.Collector.Push: requires the message to be `Ingestible` (its `fields` slice does not panic), for the reason above.
- App.App.Push: the same precondition as `Collector.Push`.
- Message.IsEventTypes: states membership in the listed groups. It does not prove that the 21 names are distinct: comparing 21 string literals pairwise is costly, and distinctness is a property of the list, not of `is_event`.
- Message.IsEvent has no contract of its own; `Message.IsEventTypes` states what it means.
- `usize` width: all indices and lengths are unbounded naturals.
  - `saturating_add` followed by `min` with a `usize` bound equals the unbounded sum followed by `min`, so those are exact.
  - The plain `offset + visible` in `select_down` could overflow only near `usize::MAX`; that overflow is not modelled.
- A message is its header ids, type name, `Debug` rendering and timestamp. Decoding, `message_name` and the `Debug` formatting belong to the mavlink library and are not part of this model.
- Timestamps come from the wall clock (`MavMsg::new`). They are carried as opaque values and never compared.
- `Color` is the palette's six colours as a datatype. Styling and rendering are not modelled.
- All `to_line` methods, `draw`, `draw_stream` and `draw_events` (including their `auto_follow` calls and window slicing) are rendering, and are not modelled.
- `App::run` is not modelled:
  - message draining from the channel;
  - terminal polling;
  - reading the key and the frame height.
- `App.App.Navigate` starts from a navigation key already decoded into a move and from the screen height as a parameter. The quit and toggle keys are the loop's exit and `App.App.TogglePanel`.
- `main.rs` (threads, channels, argument parsing) and `connection.rs` (the network link) are not part of this model.
- `collector.rs` and `entries.rs` declare `StreamEntry` and `EventEntry` with identical fields. They are modelled once, in `entries.dfy`.
- `stream()` and `events()` return the sequences rather than borrowed slices. `active_scroll` returns the object rather than a mutable borrow.
- `stream_index` is a Dafny `map`; hashing and the amortised cost of the `HashMap` and `Vec` are not modelled.
