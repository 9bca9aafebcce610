/** The ingestion engine (src/collector.rs): every decoded message either
    updates the stream table, one row per (system id, component id, type) key
    kept at its latest value, or is appended to the event log. */
module Collector {
  import opened Wrappers
  import opened Message
  import opened Entries
  import opened Text

  /** `StreamKey`: what identifies a stream row. */
  type StreamKey = (Byte, Byte, string)

  /** The key of a message's row: its origin and its type, nothing else. */
  function KeyOf(m: MavMsg): (k: StreamKey)
    ensures k.0 == m.systemId && k.1 == m.componentId && k.2 == m.name
  {
    (m.systemId, m.componentId, m.name)
  }

  function EntryKey(e: StreamEntry): StreamKey {
    (e.sysId, e.compId, e.name)
  }

  /** A message `push` can take: computing its fields does not panic. */
  predicate Ingestible(m: MavMsg) {
    HasFieldSlice(m.debug)
  }

  predicate AllIngestible(ms: seq<MavMsg>) {
    forall i :: 0 <= i < |ms| ==> Ingestible(ms[i])
  }

  lemma AllIngestibleSnoc(ms: seq<MavMsg>, m: MavMsg)
    requires AllIngestible(ms) && Ingestible(m)
    ensures AllIngestible(ms + [m])
  {
    forall i | 0 <= i < |ms| + 1 ensures Ingestible((ms + [m])[i]) {
      if i < |ms| {
        assert (ms + [m])[i] == ms[i];
      }
    }
  }

  lemma AllIngestiblePrefix(ms: seq<MavMsg>)
    requires ms != [] && AllIngestible(ms)
    ensures AllIngestible(ms[..|ms| - 1]) && Ingestible(ms[|ms| - 1])
  {
    var pre := ms[..|ms| - 1];
    forall i | 0 <= i < |pre| ensures Ingestible(pre[i]) {
      assert pre[i] == ms[i];
    }
  }

  /** The stream row `push` builds from a message. */
  function StreamEntryOf(m: MavMsg): (r: StreamEntry)
    requires Ingestible(m)
    ensures EntryKey(r) == KeyOf(m) && r.timestamp == m.timestamp
    ensures r.color == ColorOf(m) && r.color in Palette
    ensures r.msgColor == MsgColor(m.name)
    ensures r.fields == FieldsOf(m.debug) && Trimmed(r.fields)
  {
    StreamEntry(ColorOf(m), MsgColor(m.name), m.systemId, m.componentId, m.name,
                FieldsOf(m.debug), m.timestamp)
  }

  /** The event row `push` builds from a message. */
  function EventEntryOf(m: MavMsg): (r: EventEntry)
    requires Ingestible(m)
    ensures var row := StreamEntryOf(m);
      && (r.sysId, r.compId, r.name) == EntryKey(row)
      && r.color == row.color && r.msgColor == row.msgColor && r.fields == row.fields
  {
    EventEntry(ColorOf(m), MsgColor(m.name), m.systemId, m.componentId, m.name,
               FieldsOf(m.debug))
  }

  /** The collector's three fields, as a value. */
  datatype Snapshot = Snapshot(
    stream: seq<StreamEntry>,
    index: map<StreamKey, nat>,
    events: seq<EventEntry>)

  /** `Collector::new`. */
  const Empty: Snapshot := Snapshot([], map[], [])

  /** The index and the stream table describe each other: every indexed key
      points at a row with that key, every row's key is indexed and points back
      at that row (so no two rows share a key), and there are as many keys as rows. */
  ghost predicate IndexConsistent(s: Snapshot) {
    && (forall k :: k in s.index ==> s.index[k] < |s.stream| && EntryKey(s.stream[s.index[k]]) == k)
    && (forall i :: 0 <= i < |s.stream| ==>
          EntryKey(s.stream[i]) in s.index && s.index[EntryKey(s.stream[i])] == i)
    && |s.index| == |s.stream|
  }

  /** No two stream rows share a key. */
  lemma KeysDistinct(s: Snapshot, i: nat, j: nat)
    requires IndexConsistent(s)
    requires i < j < |s.stream|
    ensures EntryKey(s.stream[i]) != EntryKey(s.stream[j])
  {
  }

  /** A stream row refreshed by a later message of its key: new colour, fields
      and timestamp; the key and the type colour stay. */
  function Refresh(e: StreamEntry, m: MavMsg): (r: StreamEntry)
    requires Ingestible(m)
    ensures EntryKey(r) == EntryKey(e) && r.msgColor == e.msgColor
    ensures r.color == ColorOf(m) && r.fields == FieldsOf(m.debug) && r.timestamp == m.timestamp
  {
    e.(color := ColorOf(m), fields := FieldsOf(m.debug), timestamp := m.timestamp)
  }

  /** Overwriting a row with one of the same key keeps the index consistent. */
  lemma RefreshKeepsIndex(s: Snapshot, i: nat, e: StreamEntry)
    requires IndexConsistent(s)
    requires i < |s.stream| && EntryKey(e) == EntryKey(s.stream[i])
    ensures IndexConsistent(s.(stream := s.stream[i := e]))
  {
    var st := s.stream[i := e];
    forall j | 0 <= j < |st| ensures EntryKey(st[j]) == EntryKey(s.stream[j]) {
    }
  }

  /** Appending a row with a new key, indexed at the end, keeps the index consistent. */
  lemma AppendKeepsIndex(s: Snapshot, e: StreamEntry)
    requires IndexConsistent(s)
    requires EntryKey(e) !in s.index
    ensures IndexConsistent(s.(stream := s.stream + [e], index := s.index[EntryKey(e) := |s.stream|]))
  {
    var st := s.stream + [e];
    var index := s.index[EntryKey(e) := |s.stream|];
    forall j | 0 <= j < |s.stream| ensures EntryKey(st[j]) != EntryKey(e) && index[EntryKey(st[j])] == j {
      assert st[j] == s.stream[j];
    }
    assert st[|s.stream|] == e;
  }

  /** `Collector::push`, on values. An event is appended to the log; a stream
      message overwrites the colour, fields and timestamp of its key's row, or
      appends a row and indexes it at the end when the key is new. */
  function Ingest(s: Snapshot, m: MavMsg): (r: Snapshot)
    requires IndexConsistent(s) && Ingestible(m)
    ensures IndexConsistent(r)
    ensures IsEvent(m.name) ==>
      r.stream == s.stream && r.index == s.index && r.events == s.events + [EventEntryOf(m)]
    ensures !IsEvent(m.name) ==> r.events == s.events
    ensures !IsEvent(m.name) && KeyOf(m) in s.index ==>
      var i := s.index[KeyOf(m)];
      && i < |s.stream| && EntryKey(s.stream[i]) == KeyOf(m)
      && r.index == s.index
      && r.stream == s.stream[i := Refresh(s.stream[i], m)]
    ensures !IsEvent(m.name) && KeyOf(m) !in s.index ==>
      && r.index == s.index[KeyOf(m) := |s.stream|]
      && r.stream == s.stream + [StreamEntryOf(m)]
  {
    if IsEvent(m.name) then
      s.(events := s.events + [EventEntryOf(m)])
    else
      var key := KeyOf(m);
      if key in s.index then
        var i := s.index[key];
        var e := Refresh(s.stream[i], m);
        RefreshKeepsIndex(s, i, e);
        s.(stream := s.stream[i := e])
      else
        var e := StreamEntryOf(m);
        assert EntryKey(e) == key;
        AppendKeepsIndex(s, e);
        s.(stream := s.stream + [e], index := s.index[key := |s.stream|])
  }

  /** The collector after `Collector::new` and one `push` per message of `ms`, in order. */
  function Replay(ms: seq<MavMsg>): (s: Snapshot)
    requires AllIngestible(ms)
    ensures IndexConsistent(s)
  {
    if ms == [] then Empty
    else Ingest(Replay(ms[..|ms| - 1]), ms[|ms| - 1])
  }

  /** One more push is one more `Ingest`. */
  lemma ReplaySnoc(ms: seq<MavMsg>, m: MavMsg)
    requires AllIngestible(ms) && Ingestible(m) && AllIngestible(ms + [m])
    ensures Replay(ms + [m]) == Ingest(Replay(ms), m)
  {
    assert (ms + [m])[..|ms|] == ms;
  }

  // ----- What a sequence of pushes leaves behind, stated without the collector -----

  /** The `i`-th push is a stream message with key `k`. */
  predicate PushedAs(ms: seq<MavMsg>, i: int, k: StreamKey) {
    0 <= i < |ms| && !IsEvent(ms[i].name) && KeyOf(ms[i]) == k
  }

  /** The distinct keys among the stream messages pushed. */
  function StreamKeys(ms: seq<MavMsg>): set<StreamKey> {
    set i | 0 <= i < |ms| && !IsEvent(ms[i].name) :: KeyOf(ms[i])
  }

  /** Position of the first stream push with key `k`, or -1 if there is none. */
  function FirstPush(ms: seq<MavMsg>, k: StreamKey): (p: int)
    ensures -1 <= p < |ms|
    ensures p >= 0 ==> PushedAs(ms, p, k)
    ensures forall q :: 0 <= q < |ms| && (p < 0 || q < p) ==> !PushedAs(ms, q, k)
  {
    if ms == [] then -1
    else
      var prev := FirstPush(ms[..|ms| - 1], k);
      PushedInPrefix(ms, k);
      if prev >= 0 then prev
      else if PushedAs(ms, |ms| - 1, k) then |ms| - 1
      else -1
  }

  /** Position of the last stream push with key `k`, or -1 if there is none. */
  function LastPush(ms: seq<MavMsg>, k: StreamKey): (p: int)
    ensures -1 <= p < |ms|
    ensures p >= 0 ==> PushedAs(ms, p, k)
    ensures forall q :: p < q < |ms| ==> !PushedAs(ms, q, k)
  {
    if ms == [] then -1
    else if PushedAs(ms, |ms| - 1, k) then |ms| - 1
    else
      PushedInPrefix(ms, k);
      LastPush(ms[..|ms| - 1], k)
  }

  /** Dropping the last push does not change what the earlier pushes were. */
  lemma PushedInPrefix(ms: seq<MavMsg>, k: StreamKey)
    requires ms != []
    ensures forall q :: 0 <= q < |ms| - 1 ==> (PushedAs(ms[..|ms| - 1], q, k) <==> PushedAs(ms, q, k))
  {
  }

  /** A key has been pushed exactly when it has a first (and a last) push. */
  lemma StreamKeysPushed(ms: seq<MavMsg>, k: StreamKey)
    ensures k in StreamKeys(ms) <==> FirstPush(ms, k) >= 0
    ensures k in StreamKeys(ms) <==> LastPush(ms, k) >= 0
  {
    if k in StreamKeys(ms) {
      var i :| 0 <= i < |ms| && !IsEvent(ms[i].name) && KeyOf(ms[i]) == k;
      assert PushedAs(ms, i, k);
    }
    var p := FirstPush(ms, k);
    if p >= 0 {
      assert KeyOf(ms[p]) in StreamKeys(ms);
    }
  }

  /** One more push adds its key, if it is a stream message. */
  lemma StreamKeysSnoc(ms: seq<MavMsg>, m: MavMsg)
    ensures StreamKeys(ms + [m]) == StreamKeys(ms) + (if IsEvent(m.name) then {} else {KeyOf(m)})
  {
    var ms' := ms + [m];
    forall k | k in StreamKeys(ms')
      ensures k in StreamKeys(ms) + (if IsEvent(m.name) then {} else {KeyOf(m)})
    {
      var i :| 0 <= i < |ms'| && !IsEvent(ms'[i].name) && KeyOf(ms'[i]) == k;
      if i < |ms| {
        assert ms'[i] == ms[i];
      }
    }
    forall k | k in StreamKeys(ms) ensures k in StreamKeys(ms') {
      var i :| 0 <= i < |ms| && !IsEvent(ms[i].name) && KeyOf(ms[i]) == k;
      assert ms'[i] == ms[i];
    }
    if !IsEvent(m.name) {
      assert ms'[|ms|] == m;
    }
  }

  /** How one more push moves the first and last positions of a key. */
  lemma PushesSnoc(ms: seq<MavMsg>, m: MavMsg, k: StreamKey)
    ensures FirstPush(ms + [m], k) ==
      if FirstPush(ms, k) >= 0 then FirstPush(ms, k)
      else if !IsEvent(m.name) && KeyOf(m) == k then |ms| else -1
    ensures LastPush(ms + [m], k) ==
      if !IsEvent(m.name) && KeyOf(m) == k then |ms| else LastPush(ms, k)
  {
    assert (ms + [m])[..|ms|] == ms;
  }

  /** Each row is exactly the row built from the latest push of its key. */
  ghost predicate RowsLatest(ms: seq<MavMsg>, st: seq<StreamEntry>)
    requires AllIngestible(ms)
  {
    forall i :: 0 <= i < |st| ==>
      LastPush(ms, EntryKey(st[i])) >= 0 && st[i] == StreamEntryOf(ms[LastPush(ms, EntryKey(st[i]))])
  }

  /** The rows come in the order their keys were first pushed. */
  ghost predicate FirstSeenOrder(ms: seq<MavMsg>, st: seq<StreamEntry>) {
    forall i, j :: 0 <= i < j < |st| ==> FirstPush(ms, EntryKey(st[i])) < FirstPush(ms, EntryKey(st[j]))
  }

  /** What the stream table holds after the pushes `ms`: one row per distinct
      key of a stream push, in the order the keys were first pushed, each row
      exactly the row built from the latest push of its key. */
  ghost predicate SummarizesStream(ms: seq<MavMsg>, st: seq<StreamEntry>)
    requires AllIngestible(ms)
  {
    |st| == |StreamKeys(ms)| && RowsLatest(ms, st) && FirstSeenOrder(ms, st)
  }

  /** The stream state the induction carries: the index holds exactly the
      pushed keys and the rows summarize the pushes. */
  ghost predicate StreamInvariant(ms: seq<MavMsg>, s: Snapshot)
    requires AllIngestible(ms)
  {
    && IndexConsistent(s)
    && s.index.Keys == StreamKeys(ms)
    && SummarizesStream(ms, s.stream)
  }

  /** An event push changes no key's first or last stream push. */
  lemma EventKeepsPushes(ms: seq<MavMsg>, m: MavMsg)
    requires IsEvent(m.name)
    ensures forall k :: FirstPush(ms + [m], k) == FirstPush(ms, k) && LastPush(ms + [m], k) == LastPush(ms, k)
  {
    forall k ensures FirstPush(ms + [m], k) == FirstPush(ms, k) && LastPush(ms + [m], k) == LastPush(ms, k) {
      PushesSnoc(ms, m, k);
    }
  }

  lemma EventKeepsRows(ms: seq<MavMsg>, st: seq<StreamEntry>, m: MavMsg)
    requires AllIngestible(ms) && AllIngestible(ms + [m])
    requires IsEvent(m.name) && RowsLatest(ms, st)
    ensures RowsLatest(ms + [m], st)
  {
    EventKeepsPushes(ms, m);
    forall i | 0 <= i < |st| ensures (ms + [m])[LastPush(ms, EntryKey(st[i]))] == ms[LastPush(ms, EntryKey(st[i]))] {
    }
  }

  lemma EventKeepsOrder(ms: seq<MavMsg>, st: seq<StreamEntry>, m: MavMsg)
    requires IsEvent(m.name) && FirstSeenOrder(ms, st)
    ensures FirstSeenOrder(ms + [m], st)
  {
    EventKeepsPushes(ms, m);
  }

  /** Pushing an already-seen key changes no key's first push. */
  lemma KnownKeepsFirstPushes(ms: seq<MavMsg>, m: MavMsg)
    requires !IsEvent(m.name) && KeyOf(m) in StreamKeys(ms)
    ensures forall k :: FirstPush(ms + [m], k) == FirstPush(ms, k)
  {
    StreamKeysPushed(ms, KeyOf(m));
    forall k ensures FirstPush(ms + [m], k) == FirstPush(ms, k) {
      PushesSnoc(ms, m, k);
    }
  }

  /** Refreshing the latest row of a key with a newer push of that key gives
      the row built from the newer push. */
  lemma RefreshLatest(e: StreamEntry, older: MavMsg, m: MavMsg)
    requires Ingestible(older) && Ingestible(m)
    requires e == StreamEntryOf(older) && KeyOf(older) == KeyOf(m)
    ensures Refresh(e, m) == StreamEntryOf(m)
  {
  }

  lemma KnownKeepsRows(ms: seq<MavMsg>, st: seq<StreamEntry>, m: MavMsg, i0: nat)
    requires AllIngestible(ms) && AllIngestible(ms + [m]) && Ingestible(m)
    requires !IsEvent(m.name) && RowsLatest(ms, st)
    requires i0 < |st| && EntryKey(st[i0]) == KeyOf(m)
    requires forall i :: 0 <= i < |st| && i != i0 ==> EntryKey(st[i]) != KeyOf(m)
    ensures RowsLatest(ms + [m], st[i0 := Refresh(st[i0], m)])
  {
    var ms' := ms + [m];
    var st' := st[i0 := Refresh(st[i0], m)];
    forall i | 0 <= i < |st'|
      ensures LastPush(ms', EntryKey(st'[i])) >= 0
      ensures st'[i] == StreamEntryOf(ms'[LastPush(ms', EntryKey(st'[i]))])
    {
      var k := EntryKey(st[i]);
      PushesSnoc(ms, m, k);
      if i == i0 {
        RefreshLatest(st[i0], ms[LastPush(ms, k)], m);
      } else {
        assert ms'[LastPush(ms', k)] == ms[LastPush(ms, k)];
      }
    }
  }

  lemma KnownKeepsOrder(ms: seq<MavMsg>, st: seq<StreamEntry>, m: MavMsg, e: StreamEntry, i0: nat)
    requires !IsEvent(m.name) && KeyOf(m) in StreamKeys(ms) && FirstSeenOrder(ms, st)
    requires i0 < |st| && EntryKey(e) == EntryKey(st[i0])
    ensures FirstSeenOrder(ms + [m], st[i0 := e])
  {
    KnownKeepsFirstPushes(ms, m);
    var st' := st[i0 := e];
    assert forall i :: 0 <= i < |st'| ==> EntryKey(st'[i]) == EntryKey(st[i]);
  }

  /** A key pushed for the first time comes after every key pushed before. */
  lemma NewKeyPushed(ms: seq<MavMsg>, m: MavMsg)
    requires !IsEvent(m.name) && KeyOf(m) !in StreamKeys(ms)
    ensures FirstPush(ms + [m], KeyOf(m)) == |ms| && LastPush(ms + [m], KeyOf(m)) == |ms|
  {
    StreamKeysPushed(ms, KeyOf(m));
    PushesSnoc(ms, m, KeyOf(m));
  }

  /** A push leaves the first and last pushes of every other key as they were. */
  lemma OtherKeyPushes(ms: seq<MavMsg>, m: MavMsg, k: StreamKey)
    requires KeyOf(m) != k
    ensures FirstPush(ms + [m], k) == FirstPush(ms, k) && LastPush(ms + [m], k) == LastPush(ms, k)
  {
    PushesSnoc(ms, m, k);
  }

  lemma NewKeepsRows(ms: seq<MavMsg>, st: seq<StreamEntry>, m: MavMsg)
    requires AllIngestible(ms) && AllIngestible(ms + [m]) && Ingestible(m)
    requires !IsEvent(m.name) && KeyOf(m) !in StreamKeys(ms) && RowsLatest(ms, st)
    requires forall i :: 0 <= i < |st| ==> EntryKey(st[i]) != KeyOf(m)
    ensures RowsLatest(ms + [m], st + [StreamEntryOf(m)])
  {
    var ms' := ms + [m];
    var st' := st + [StreamEntryOf(m)];
    forall i | 0 <= i < |st'|
      ensures LastPush(ms', EntryKey(st'[i])) >= 0
      ensures st'[i] == StreamEntryOf(ms'[LastPush(ms', EntryKey(st'[i]))])
    {
      if i < |st| {
        var k := EntryKey(st[i]);
        OtherKeyPushes(ms, m, k);
        assert st'[i] == st[i];
        assert ms'[LastPush(ms', k)] == ms[LastPush(ms, k)];
      } else {
        NewKeyPushed(ms, m);
      }
    }
  }

  lemma NewKeepsOrder(ms: seq<MavMsg>, st: seq<StreamEntry>, m: MavMsg, e: StreamEntry)
    requires !IsEvent(m.name) && KeyOf(m) !in StreamKeys(ms) && FirstSeenOrder(ms, st)
    requires EntryKey(e) == KeyOf(m)
    requires forall i :: 0 <= i < |st| ==> EntryKey(st[i]) != KeyOf(m)
    ensures FirstSeenOrder(ms + [m], st + [e])
  {
    var st' := st + [e];
    forall i | 0 <= i < |st|
      ensures FirstPush(ms + [m], EntryKey(st'[i])) == FirstPush(ms, EntryKey(st[i])) < |ms|
    {
      assert st'[i] == st[i];
      OtherKeyPushes(ms, m, EntryKey(st[i]));
    }
    NewKeyPushed(ms, m);
  }

  /** The index keeps holding exactly the pushed keys, one per row. */
  lemma IndexKeysStep(ms: seq<MavMsg>, s: Snapshot, m: MavMsg)
    requires Ingestible(m) && IndexConsistent(s) && s.index.Keys == StreamKeys(ms)
    ensures Ingest(s, m).index.Keys == StreamKeys(ms + [m])
    ensures |Ingest(s, m).stream| == |StreamKeys(ms + [m])|
  {
    var r := Ingest(s, m);
    StreamKeysSnoc(ms, m);
    IngestIndex(s, m);
    IndexedKeys(s.index, r.index, !IsEvent(m.name), KeyOf(m), |s.stream|);
    MapCount(r.index);
  }

  /** What `push` does to the index: only a new stream key adds an entry. */
  lemma IngestIndex(s: Snapshot, m: MavMsg)
    requires IndexConsistent(s) && Ingestible(m)
    ensures var r := Ingest(s, m);
      && |r.stream| == |r.index|
      && r.index == if !IsEvent(m.name) && KeyOf(m) !in s.index then s.index[KeyOf(m) := |s.stream|] else s.index
  {
  }

  /** Indexing a key if it is a stream key and not yet present adds it to the
      index's keys exactly when it is a stream key. */
  lemma IndexedKeys(index: map<StreamKey, nat>, next: map<StreamKey, nat>, stream: bool, k: StreamKey, n: nat)
    requires next == if stream && k !in index then index[k := n] else index
    ensures next.Keys == index.Keys + (if stream then {k} else {})
  {
  }

  lemma MapCount(index: map<StreamKey, nat>)
    ensures |index.Keys| == |index|
  {
  }

  /** An event push keeps the stream invariant. */
  lemma EventStep(ms: seq<MavMsg>, s: Snapshot, m: MavMsg)
    requires AllIngestible(ms) && Ingestible(m) && AllIngestible(ms + [m])
    requires StreamInvariant(ms, s) && IsEvent(m.name)
    ensures StreamInvariant(ms + [m], Ingest(s, m))
  {
    IndexKeysStep(ms, s, m);
    EventKeepsRows(ms, s.stream, m);
    EventKeepsOrder(ms, s.stream, m);
  }

  /** A push of an already-seen key keeps the stream invariant. */
  lemma KnownStep(ms: seq<MavMsg>, s: Snapshot, m: MavMsg)
    requires AllIngestible(ms) && Ingestible(m) && AllIngestible(ms + [m])
    requires StreamInvariant(ms, s) && !IsEvent(m.name) && KeyOf(m) in s.index
    ensures StreamInvariant(ms + [m], Ingest(s, m))
  {
    IndexKeysStep(ms, s, m);
    var i0 := s.index[KeyOf(m)];
    KnownKeepsRows(ms, s.stream, m, i0);
    KnownKeepsOrder(ms, s.stream, m, Refresh(s.stream[i0], m), i0);
  }

  /** A push of a new key keeps the stream invariant. */
  lemma NewStep(ms: seq<MavMsg>, s: Snapshot, m: MavMsg)
    requires AllIngestible(ms) && Ingestible(m) && AllIngestible(ms + [m])
    requires StreamInvariant(ms, s) && !IsEvent(m.name) && KeyOf(m) !in s.index
    ensures StreamInvariant(ms + [m], Ingest(s, m))
  {
    IndexKeysStep(ms, s, m);
    KnownKeyIndexed(s, KeyOf(m));
    NewKeepsRows(ms, s.stream, m);
    NewKeepsOrder(ms, s.stream, m, StreamEntryOf(m));
  }

  /** After any sequence of pushes, the stream table holds one row per distinct
      key among the stream messages, in first-seen order, each row built from
      the latest push of its key, and the index holds exactly those keys. */
  lemma {:induction false} ReplayStream(ms: seq<MavMsg>)
    requires AllIngestible(ms)
    ensures StreamInvariant(ms, Replay(ms))
  {
    if ms != [] {
      var pre := ms[..|ms| - 1];
      var m := ms[|ms| - 1];
      assert ms == pre + [m];
      AllIngestiblePrefix(ms);
      ReplayStream(pre);
      ReplaySnoc(pre, m);
      var s := Replay(pre);
      if IsEvent(m.name) {
        EventStep(pre, s, m);
      } else if KeyOf(m) in s.index {
        KnownStep(pre, s, m);
      } else {
        NewStep(pre, s, m);
      }
    }
  }

  /** A key without an index entry has no row. */
  lemma KnownKeyIndexed(s: Snapshot, k: StreamKey)
    requires IndexConsistent(s) && k !in s.index
    ensures forall i :: 0 <= i < |s.stream| ==> EntryKey(s.stream[i]) != k
  {
  }

  /** The event row of an event message; nothing for any other message. */
  function EventOf(m: MavMsg): Option<EventEntry> {
    if IsEvent(m.name) && Ingestible(m) then Some(EventEntryOf(m)) else None
  }

  /** The event log a sequence of pushes should leave: its event messages, in arrival order. */
  function EventLog(ms: seq<MavMsg>): seq<EventEntry> {
    FilterMap(ms, EventOf)
  }

  /** After any sequence of pushes, the event log is exactly the event
      messages, in the order they arrived. */
  lemma {:induction false} ReplayEvents(ms: seq<MavMsg>)
    requires AllIngestible(ms)
    ensures Replay(ms).events == EventLog(ms)
  {
    if ms != [] {
      var pre := ms[..|ms| - 1];
      var m := ms[|ms| - 1];
      assert ms == pre + [m];
      AllIngestiblePrefix(ms);
      ReplayEvents(pre);
      ReplaySnoc(pre, m);
      IngestEvents(Replay(pre), m);
      EventLogSnoc(pre, m);
    }
  }

  /** One push adds to the event log exactly the entry `EventOf` gives. */
  lemma IngestEvents(s: Snapshot, m: MavMsg)
    requires IndexConsistent(s) && Ingestible(m)
    ensures Ingest(s, m).events == s.events + Present(EventOf(m))
  {
  }

  lemma EventLogSnoc(ms: seq<MavMsg>, m: MavMsg)
    ensures EventLog(ms + [m]) == EventLog(ms) + Present(EventOf(m))
  {
    FilterMapAppend(ms, [m], EventOf);
    FilterMapCons(m, [], EventOf);
    assert [m] + [] == [m];
  }

  /** `Collector`: the stream table, its key index and the event log. */
  class Collector {
    var stream: seq<StreamEntry>
    var streamIndex: map<StreamKey, nat>
    var events: seq<EventEntry>
    /** Every message pushed so far, oldest first. */
    ghost var pushed: seq<MavMsg>

    function State(): Snapshot
      reads this
    {
      Snapshot(stream, streamIndex, events)
    }

    /** The fields are what pushing `pushed` into a new collector gives. */
    ghost predicate Valid()
      reads this
    {
      AllIngestible(pushed) && Snapshot(stream, streamIndex, events) == Replay(pushed)
    }

    /** `Collector::new`: nothing pushed, all three collections empty. */
    constructor ()
      ensures Valid() && pushed == []
      ensures stream == [] && streamIndex == map[] && events == []
    {
      stream := [];
      streamIndex := map[];
      events := [];
      pushed := [];
    }

    /** `Collector::push`. */
    method Push(msg: MavMsg)
      requires Valid() && Ingestible(msg)
      modifies this
      ensures Valid() && pushed == old(pushed) + [msg]
      ensures State() == Ingest(old(State()), msg)
    {
      ghost var ms := pushed;
      if IsEvent(msg.name) {
        LogEvent(msg);
      } else if (msg.systemId, msg.componentId, msg.name) in streamIndex {
        RefreshRow(msg);
      } else {
        AppendRow(msg);
      }
      AllIngestibleSnoc(ms, msg);
      ReplaySnoc(ms, msg);
      pushed := ms + [msg];
    }

    /** The event branch of `push`: append an event row to the log. */
    method LogEvent(msg: MavMsg)
      requires IndexConsistent(State()) && Ingestible(msg) && IsEvent(msg.name)
      modifies this
      ensures pushed == old(pushed)
      ensures State() == Ingest(old(State()), msg)
    {
      events := events + [EventEntryOf(msg)];
    }

    /** The known-key branch of `push`: overwrite the colour, fields and
        timestamp of the row the index points at. */
    method RefreshRow(msg: MavMsg)
      requires IndexConsistent(State()) && Ingestible(msg) && !IsEvent(msg.name)
      requires (msg.systemId, msg.componentId, msg.name) in streamIndex
      modifies this
      ensures pushed == old(pushed)
      ensures State() == Ingest(old(State()), msg)
    {
      var idx := streamIndex[(msg.systemId, msg.componentId, msg.name)];
      stream := stream[idx := Refresh(stream[idx], msg)];
    }

    /** The new-key branch of `push`: index the key at the end and append its row. */
    method AppendRow(msg: MavMsg)
      requires IndexConsistent(State()) && Ingestible(msg) && !IsEvent(msg.name)
      requires (msg.systemId, msg.componentId, msg.name) !in streamIndex
      modifies this
      ensures pushed == old(pushed)
      ensures State() == Ingest(old(State()), msg)
    {
      streamIndex := streamIndex[(msg.systemId, msg.componentId, msg.name) := |stream|];
      stream := stream + [StreamEntryOf(msg)];
    }

    /** `Collector::stream`: one row per distinct key pushed, first-seen order,
        latest values. */
    function Stream(): (r: seq<StreamEntry>)
      reads this
      requires Valid()
      ensures SummarizesStream(pushed, r)
    {
      ReplayStream(pushed);
      stream
    }

    /** `Collector::events`: the event messages pushed, in arrival order. */
    function Events(): (r: seq<EventEntry>)
      reads this
      requires Valid()
      ensures r == EventLog(pushed)
    {
      ReplayEvents(pushed);
      events
    }
  }
}
