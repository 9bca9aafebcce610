/** The two kinds of row the inspector shows, and `parse_fields`, which
    splits a message's field text into key/value pairs (src/entries.rs). */
module Entries {
  import opened Wrappers
  import opened Text
  import opened Message

  /** A key/value pair as `parse_fields` returns it. */
  type Field = (string, string)

  /** What every pair `parse_fields` returns satisfies: both halves trimmed,
      neither contains a comma, and the key contains no colon. */
  predicate WellFormedField(f: Field) {
    Trimmed(f.0) && Trimmed(f.1) && ',' !in f.0 && ',' !in f.1 && ':' !in f.0
  }

  /** A row of the stream table: the latest message of one
      (system id, component id, type) key. */
  datatype StreamEntry = StreamEntry(
    color: Color,
    msgColor: Option<Color>,
    sysId: Byte,
    compId: Byte,
    name: string,
    fields: string,
    timestamp: Timestamp)
  {
    /** `StreamEntry::parsed_fields`. */
    function ParsedFields(): (r: seq<Field>)
      ensures r == ParseFields(fields)
      ensures forall f :: f in r ==> WellFormedField(f)
    {
      ParseFields(fields)
    }
  }

  /** A row of the event log: one event message, as it arrived. */
  datatype EventEntry = EventEntry(
    color: Color,
    msgColor: Option<Color>,
    sysId: Byte,
    compId: Byte,
    name: string,
    fields: string)
  {
    /** `EventEntry::parsed_fields`. */
    function ParsedFields(): (r: seq<Field>)
      ensures r == ParseFields(fields)
      ensures forall f :: f in r ==> WellFormedField(f)
    {
      ParseFields(fields)
    }
  }

  /** The `filter_map` step of `parse_fields` for one comma-separated segment:
      trim it, drop it if empty, split it at its first colon, trim both halves.
      A segment yields a pair exactly when it contains a colon. */
  function ParseSegment(segment: string): (r: Option<Field>)
    ensures r.Some? <==> ':' in segment
    ensures r.Some? ==> Trimmed(r.value.0) && Trimmed(r.value.1) && ':' !in r.value.0
  {
    var part := Trim(segment);
    TrimKeepsCharacters(segment);
    if part == [] then None
    else match SplitOnce(part, ':')
      case None => None
      case Some((key, value)) =>
        TrimKeepsCharacters(key);
        Some((Trim(key), Trim(value)))
  }

  /** A pair holds only characters of the segment it came from. */
  lemma ParseSegmentCharacters(segment: string, c: char)
    requires c !in segment
    ensures ParseSegment(segment).Some? ==>
      c !in ParseSegment(segment).value.0 && c !in ParseSegment(segment).value.1
  {
    var part := Trim(segment);
    TrimKeepsCharacters(segment);
    if part != [] && ':' in part {
      var (key, value) := SplitOnce(part, ':').value;
      TrimKeepsCharacters(key);
      TrimKeepsCharacters(value);
    }
  }

  /** `Iterator::filter_map(f).collect()`: the present results of `f`, in order. */
  function FilterMap<A, B>(xs: seq<A>, f: A -> Option<B>): (r: seq<B>)
    ensures |r| <= |xs|
  {
    if xs == [] then [] else Present(f(xs[0])) + FilterMap(xs[1..], f)
  }

  /** The value of an `Option`, as a sequence of zero or one elements. */
  function Present<B>(o: Option<B>): (r: seq<B>)
    ensures |r| <= 1
  {
    match o
    case Some(y) => [y]
    case None => []
  }

  lemma FilterMapCons<A, B>(x: A, xs: seq<A>, f: A -> Option<B>)
    ensures FilterMap([x] + xs, f) == Present(f(x)) + FilterMap(xs, f)
  {
    assert ([x] + xs)[1..] == xs;
  }

  lemma {:induction false} FilterMapAppend<A, B>(a: seq<A>, b: seq<A>, f: A -> Option<B>)
    ensures FilterMap(a + b, f) == FilterMap(a, f) + FilterMap(b, f)
  {
    if a == [] {
      assert a + b == b;
    } else {
      assert (a + b)[0] == a[0];
      assert (a + b)[1..] == a[1..] + b;
      FilterMapAppend(a[1..], b, f);
      calc {
        FilterMap(a + b, f);
        Present(f(a[0])) + FilterMap(a[1..] + b, f);
        Present(f(a[0])) + (FilterMap(a[1..], f) + FilterMap(b, f));
        (Present(f(a[0])) + FilterMap(a[1..], f)) + FilterMap(b, f);
      }
    }
  }

  /** The pairs of a list of segments, in order. */
  function ParseSegments(segments: seq<string>): seq<Field> {
    FilterMap(segments, ParseSegment)
  }

  /** `parse_fields`: the pairs of a `key: value, key: value` text, at most one
      per comma-separated segment, each of them well formed. */
  function ParseFields(s: string): (r: seq<Field>)
    ensures |r| <= |Split(s, ',')|
    ensures forall f :: f in r ==> WellFormedField(f)
  {
    ParseSegmentsWellFormed(Split(s, ','));
    ParseSegments(Split(s, ','))
  }

  /** Pairs come only from segments, so a character no segment holds
      appears in no pair; with the comma, every pair is well formed. */
  lemma {:induction false} ParseSegmentsWellFormed(segments: seq<string>)
    requires forall p :: p in segments ==> ',' !in p
    ensures forall f :: f in ParseSegments(segments) ==> WellFormedField(f)
  {
    if segments != [] {
      ParseSegmentCharacters(segments[0], ',');
      ParseSegmentsWellFormed(segments[1..]);
    }
  }

  /** Output order follows input order: the pairs of the text before a comma
      come first, then those after it. */
  lemma ParseFieldsAround(a: string, b: string)
    ensures ParseFields(a + [','] + b) == ParseFields(a) + ParseFields(b)
  {
    SplitAround(a, ',', b);
    FilterMapAppend(Split(a, ','), Split(b, ','), ParseSegment);
  }

  /** A comma-free text is one segment: it yields one pair if it holds a colon
      and none otherwise (in particular an empty or blank segment yields none). */
  lemma ParseFieldsSegment(segment: string)
    requires ',' !in segment
    ensures ParseFields(segment) == if ':' in segment then [ParseSegment(segment).value] else []
  {
    SplitWithoutSeparator(segment, ',');
  }

  /** A segment is split at its first colon only: the key is what precedes it,
      the value is everything after it, colons included, both trimmed. */
  lemma ParseSegmentAtFirstColon(key: string, value: string)
    requires ':' !in key
    ensures ParseSegment(key + [':'] + value) == Some((Trim(key), Trim(value)))
  {
    TrimAround(key, ':', value);
    assert ':' !in TrimStart(key) by {
      assert TrimStart(key) == key[|key| - |TrimStart(key)|..];
    }
    SplitOnceAt(TrimStart(key), ':', TrimEnd(value));
    TrimOfTrimStart(key);
    TrimOfTrimEnd(value);
  }

  /** How a pair is rendered in a message's field text: `key: value`. */
  function FormatField(f: Field): string {
    f.0 + ": " + f.1
  }

  /** The field text of a message: pairs rendered and separated by `, `, the
      shape a struct's `Debug` output has between its braces. */
  function FormatFields(fields: seq<Field>): string {
    if fields == [] then []
    else if |fields| == 1 then FormatField(fields[0])
    else FormatField(fields[0]) + ", " + FormatFields(fields[1..])
  }

  /** Leading blanks before a segment do not change what it yields. */
  lemma ParseFieldsAfterSpace(s: string)
    ensures ParseFields([' '] + s) == ParseFields(s)
  {
    var parts := Split(s, ',');
    SplitCons(' ', s, ',');
    TrimAfterWhitespace(' ', parts[0]);
    assert ParseSegment([' '] + parts[0]) == ParseSegment(parts[0]);
    FilterMapCons([' '] + parts[0], parts[1..], ParseSegment);
    FilterMapCons(parts[0], parts[1..], ParseSegment);
    assert parts == [parts[0]] + parts[1..];
  }

  /** One rendered pair reads back as itself. */
  lemma ParseFormatField(f: Field)
    requires WellFormedField(f)
    ensures ',' !in FormatField(f)
    ensures ParseFields(FormatField(f)) == [f]
  {
    FormatFieldShape(f);
    ParseFormattedSegment(f);
    ParseFieldsSegment(FormatField(f));
  }

  lemma FormatFieldShape(f: Field)
    requires WellFormedField(f)
    ensures FormatField(f) == f.0 + [':'] + ([' '] + f.1)
    ensures ',' !in FormatField(f)
  {
    assert FormatField(f) == f.0 + [':', ' '] + f.1;
  }

  lemma ParseFormattedSegment(f: Field)
    requires WellFormedField(f)
    ensures ParseSegment(f.0 + [':'] + ([' '] + f.1)) == Some(f)
  {
    ParseSegmentAtFirstColon(f.0, [' '] + f.1);
    TrimAfterWhitespace(' ', f.1);
    TrimOfTrimmed(f.0);
    TrimOfTrimmed(f.1);
  }

  /** A `, ` separator splits the pairs like a bare comma does. */
  lemma ParseFieldsAroundSeparator(a: string, b: string)
    ensures ParseFields(a + [','] + ([' '] + b)) == ParseFields(a) + ParseFields(b)
  {
    ParseFieldsAround(a, [' '] + b);
    ParseFieldsAfterSpace(b);
  }

  lemma FormatFieldsCons(fields: seq<Field>)
    requires |fields| > 1
    ensures FormatFields(fields) == FormatField(fields[0]) + [','] + ([' '] + FormatFields(fields[1..]))
  {
    CommaSpace(FormatField(fields[0]), FormatFields(fields[1..]));
  }

  /** The separator `", "` is a comma followed by a blank. */
  lemma CommaSpace(a: string, b: string)
    ensures a + ", " + b == a + [','] + ([' '] + b)
  {
    var l, r := a + ", " + b, a + [','] + ([' '] + b);
    forall i | 0 <= i < |l| ensures l[i] == r[i] {
    }
  }

  /** `parse_fields` reads back exactly the pairs that were rendered, whenever
      every pair is of the kind it can return. */
  lemma {:induction false} ParseFormatFields(fields: seq<Field>)
    requires forall f :: f in fields ==> WellFormedField(f)
    ensures ParseFields(FormatFields(fields)) == fields
  {
    if fields != [] {
      assert fields[0] in fields;
      ParseFormatField(fields[0]);
      if |fields| > 1 {
        FormatFieldsCons(fields);
        ParseFieldsAroundSeparator(FormatField(fields[0]), FormatFields(fields[1..]));
        ParseFormatFields(fields[1..]);
        assert fields == [fields[0]] + fields[1..];
      }
    }
  }
}
