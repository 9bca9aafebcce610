/** The parts of Rust's `str` API that the inspector relies on: `trim`
    (built here from its two halves, `trim_start` and `trim_end`), `split`,
    `split_once`, `find` and `rfind`, on strings as sequences of Unicode
    scalar values. */
module Text {
  import opened Wrappers

  /** Unicode White_Space, the set `char::is_whitespace` (and so `trim`) uses. */
  predicate IsWhitespace(c: char) {
    || ('\t' <= c <= '\r')
    || c == ' '
    || c == '\U{85}' || c == '\U{A0}' || c == '\U{1680}'
    || ('\U{2000}' <= c <= '\U{200A}')
    || c == '\U{2028}' || c == '\U{2029}' || c == '\U{202F}' || c == '\U{205F}'
    || c == '\U{3000}'
  }

  /** No whitespace at either end: what `trim` guarantees of its result. */
  predicate Trimmed(s: string) {
    s == [] || (!IsWhitespace(s[0]) && !IsWhitespace(s[|s| - 1]))
  }

  /** The number of whitespace characters `s` starts with. */
  function LeadingWhitespace(s: string): (n: nat)
    ensures n <= |s|
    ensures forall i :: 0 <= i < n ==> IsWhitespace(s[i])
    ensures n < |s| ==> !IsWhitespace(s[n])
  {
    if s == [] || !IsWhitespace(s[0]) then 0 else 1 + LeadingWhitespace(s[1..])
  }

  /** The number of whitespace characters `s` ends with. */
  function TrailingWhitespace(s: string): (n: nat)
    ensures n <= |s|
    ensures forall i :: |s| - n <= i < |s| ==> IsWhitespace(s[i])
    ensures n < |s| ==> !IsWhitespace(s[|s| - 1 - n])
  {
    if s == [] || !IsWhitespace(s[|s| - 1]) then 0 else 1 + TrailingWhitespace(s[..|s| - 1])
  }

  /** The whitespace run at the start is determined by where the first other
      character is (or by the end of the string). */
  lemma LeadingWhitespaceIs(s: string, n: nat)
    requires n <= |s|
    requires forall i :: 0 <= i < n ==> IsWhitespace(s[i])
    requires n < |s| ==> !IsWhitespace(s[n])
    ensures LeadingWhitespace(s) == n
  {
  }

  lemma TrailingWhitespaceIs(s: string, n: nat)
    requires n <= |s|
    requires forall i :: |s| - n <= i < |s| ==> IsWhitespace(s[i])
    requires n < |s| ==> !IsWhitespace(s[|s| - 1 - n])
    ensures TrailingWhitespace(s) == n
  {
  }

  /** Cutting off the end after the first non-whitespace character leaves
      the leading whitespace as it is. */
  lemma LeadingOfPrefix(s: string, j: nat)
    requires LeadingWhitespace(s) < j <= |s|
    ensures LeadingWhitespace(s[..j]) == LeadingWhitespace(s)
  {
    var i := LeadingWhitespace(s);
    assert forall k :: 0 <= k <= i ==> s[..j][k] == s[k];
    LeadingWhitespaceIs(s[..j], i);
  }

  /** Cutting off the start before the last non-whitespace character leaves
      the trailing whitespace as it is. */
  lemma TrailingOfSuffix(s: string, i: nat)
    requires i < |s| - TrailingWhitespace(s)
    ensures TrailingWhitespace(s[i..]) == TrailingWhitespace(s)
  {
    var n := TrailingWhitespace(s);
    var t := s[i..];
    assert forall k :: |t| - 1 - n <= k < |t| ==> t[k] == s[k + i];
    TrailingWhitespaceIs(t, n);
  }

  /** `str::trim_start`: `s` without its leading whitespace. */
  function TrimStart(s: string): (r: string)
    ensures |r| <= |s|
    ensures r == [] || !IsWhitespace(r[0])
  {
    s[LeadingWhitespace(s)..]
  }

  /** `str::trim_end`: `s` without its trailing whitespace. */
  function TrimEnd(s: string): (r: string)
    ensures |r| <= |s|
    ensures r == [] || !IsWhitespace(r[|r| - 1])
  {
    s[..|s| - TrailingWhitespace(s)]
  }

  /** `str::trim`: `s` with the whitespace at both ends removed. */
  function Trim(s: string): (r: string)
    ensures Trimmed(r)
  {
    TrimEnd(TrimStart(s))
  }

  /** `Trim` keeps a slice of `s`: everything before it and after it is
      whitespace. */
  lemma TrimIsSlice(s: string) returns (i: nat, j: nat)
    ensures i <= j <= |s| && Trim(s) == s[i..j]
    ensures forall k :: 0 <= k < i ==> IsWhitespace(s[k])
    ensures forall k :: j <= k < |s| ==> IsWhitespace(s[k])
  {
    i := LeadingWhitespace(s);
    var t := s[i..];
    j := |s| - TrailingWhitespace(t);
    forall k | j <= k < |s|
      ensures IsWhitespace(s[k])
    {
      assert s[k] == t[k - i];
    }
  }

  /** `Trim` removes whitespace only: every other character survives it. */
  lemma TrimKeepsCharacters(s: string)
    ensures forall c :: c in Trim(s) ==> c in s
    ensures forall c :: c in s && !IsWhitespace(c) ==> c in Trim(s)
  {
    var i, j := TrimIsSlice(s);
    SliceKeepsNonWhitespace(s, i, j);
  }

  /** Cutting whitespace off both ends keeps every other character. */
  lemma SliceKeepsNonWhitespace(s: string, i: nat, j: nat)
    requires i <= j <= |s|
    requires forall k :: 0 <= k < i ==> IsWhitespace(s[k])
    requires forall k :: j <= k < |s| ==> IsWhitespace(s[k])
    ensures forall c :: c in s[i..j] ==> c in s
    ensures forall c :: c in s && !IsWhitespace(c) ==> c in s[i..j]
  {
    forall c | c in s && !IsWhitespace(c) ensures c in s[i..j] {
      var k :| 0 <= k < |s| && s[k] == c;
      assert s[i..j][k - i] == c;
    }
  }

  /** A string with nothing to trim is left as it is; in particular `Trim` is idempotent. */
  lemma TrimOfTrimmed(s: string)
    requires Trimmed(s)
    ensures TrimStart(s) == s && TrimEnd(s) == s && Trim(s) == s
  {
  }

  /** Trimming from the front stops at the first non-whitespace character. */
  lemma TrimStartAround(a: string, c: char, b: string)
    requires !IsWhitespace(c)
    ensures TrimStart(a + [c] + b) == TrimStart(a) + [c] + b
  {
    var s := a + [c] + b;
    var n := LeadingWhitespace(a);
    assert forall i :: 0 <= i < n ==> s[i] == a[i];
    assert n < |s| && !IsWhitespace(s[n]) by {
      if n < |a| { assert s[n] == a[n]; } else { assert s[n] == c; }
    }
    LeadingWhitespaceIs(s, n);
    assert s[n..] == a[n..] + [c] + b;
  }

  /** Trimming from the back stops at the last non-whitespace character. */
  lemma TrimEndAround(a: string, c: char, b: string)
    requires !IsWhitespace(c)
    ensures TrimEnd(a + [c] + b) == a + [c] + TrimEnd(b)
  {
    var s := a + [c] + b;
    var n := TrailingWhitespace(b);
    assert forall i :: |s| - n <= i < |s| ==> s[i] == b[i - |a| - 1];
    assert n < |s| && !IsWhitespace(s[|s| - 1 - n]) by {
      if n < |b| { assert s[|s| - 1 - n] == b[|b| - 1 - n]; } else { assert s[|s| - 1 - n] == c; }
    }
    TrailingWhitespaceIs(s, n);
    assert s[..|s| - n] == a + [c] + b[..|b| - n];
  }

  /** `trim` may remove either end first: both orders keep the same slice. */
  lemma TrimEndsCommute(s: string)
    ensures TrimStart(TrimEnd(s)) == TrimEnd(TrimStart(s))
  {
    var i := LeadingWhitespace(s);
    var n := TrailingWhitespace(s);
    if i == |s| {
      TrailingWhitespaceIs(s, |s|);
    } else {
      var j := |s| - n;
      LeadingOfPrefix(s, j);
      TrailingOfSuffix(s, i);
      SliceOfSlice(s, i, j);
    }
  }

  lemma SliceOfSlice(s: string, i: nat, j: nat)
    requires i <= j <= |s|
    ensures s[..j][i..] == s[i..j] == s[i..][..j - i]
  {
  }

  /** Trimming around a non-whitespace character trims each side separately. */
  lemma TrimAround(a: string, c: char, b: string)
    requires !IsWhitespace(c)
    ensures Trim(a + [c] + b) == TrimStart(a) + [c] + TrimEnd(b)
  {
    TrimStartAround(a, c, b);
    TrimEndAround(TrimStart(a), c, b);
  }

  /** Trimming the front first does not change what `Trim` gives. */
  lemma TrimOfTrimStart(s: string)
    ensures Trim(TrimStart(s)) == Trim(s)
  {
    assert LeadingWhitespace(TrimStart(s)) == 0;
  }

  /** Trimming the back first does not change what `Trim` gives. */
  lemma TrimOfTrimEnd(s: string)
    ensures Trim(TrimEnd(s)) == Trim(s)
  {
    TrimEndsCommute(s);
    var t := TrimEnd(TrimStart(s));
    assert TrailingWhitespace(t) == 0;
  }

  /** Leading whitespace is what `trim` removes first. */
  lemma TrimAfterWhitespace(c: char, s: string)
    requires IsWhitespace(c)
    ensures Trim([c] + s) == Trim(s)
  {
    assert ([c] + s)[1..] == s;
    assert ([c] + s)[LeadingWhitespace([c] + s)..] == s[LeadingWhitespace(s)..];
  }

  /** `str::find(c)`: the position of the first `c`. */
  function IndexOf(s: string, c: char): (i: nat)
    requires c in s
    ensures i < |s| && s[i] == c && c !in s[..i]
  {
    if s[0] == c then 0 else 1 + IndexOf(s[1..], c)
  }

  /** `str::rfind(c)`: the position of the last `c`. */
  function LastIndexOf(s: string, c: char): (i: nat)
    requires c in s
    ensures i < |s| && s[i] == c && c !in s[i + 1..]
  {
    if s[|s| - 1] == c then |s| - 1 else LastIndexOf(s[..|s| - 1], c)
  }

  /** `find` stops at the first occurrence. */
  lemma IndexOfAt(prefix: string, c: char, rest: string)
    requires c !in prefix
    ensures IndexOf(prefix + [c] + rest, c) == |prefix|
  {
    var s := prefix + [c] + rest;
    var i := IndexOf(s, c);
    assert s[|prefix|] == c;
    assert s[..|prefix|] == prefix;
  }

  /** `rfind` stops at the last occurrence. */
  lemma LastIndexOfAt(rest: string, c: char, suffix: string)
    requires c !in suffix
    ensures LastIndexOf(rest + [c] + suffix, c) == |rest|
  {
    var s := rest + [c] + suffix;
    var i := LastIndexOf(s, c);
    assert s[|rest|] == c;
    assert s[|rest| + 1..] == suffix;
  }

  /** `str::split_once(c)`: the text before the first `c` and the text after it. */
  function SplitOnce(s: string, c: char): (r: Option<(string, string)>)
    ensures r.Some? <==> c in s
    ensures r.Some? ==> s == r.value.0 + [c] + r.value.1 && c !in r.value.0
  {
    if c in s then
      var i := IndexOf(s, c);
      assert s == s[..i] + [c] + s[i + 1..];
      Some((s[..i], s[i + 1..]))
    else None
  }

  /** `split_once` splits at the first occurrence. */
  lemma SplitOnceAt(a: string, c: char, b: string)
    requires c !in a
    ensures SplitOnce(a + [c] + b, c) == Some((a, b))
  {
    IndexOfAt(a, c, b);
    var s := a + [c] + b;
    assert s[..|a|] == a;
    assert s[|a| + 1..] == b;
  }

  /** The inverse of `Split`: the pieces glued back with the separator between them. */
  function Join(parts: seq<string>, sep: char): string {
    if parts == [] then []
    else if |parts| == 1 then parts[0]
    else parts[0] + [sep] + Join(parts[1..], sep)
  }

  /** `str::split(sep)`: the pieces between separators, always at least one
      (an empty string gives one empty piece). */
  function Split(s: string, sep: char): (parts: seq<string>)
    ensures |parts| >= 1
    ensures forall p :: p in parts ==> sep !in p
    ensures Join(parts, sep) == s
  {
    if s == [] then [[]]
    else
      var rest := Split(s[1..], sep);
      if s[0] == sep then
        assert s == [sep] + s[1..];
        [[]] + rest
      else
        assert s == [s[0]] + s[1..];
        var parts := [[s[0]] + rest[0]] + rest[1..];
        assert parts[1..] == rest[1..];
        parts
  }

  /** A leading non-separator character joins the first piece. */
  lemma SplitCons(c: char, s: string, sep: char)
    requires c != sep
    ensures Split([c] + s, sep) == [[c] + Split(s, sep)[0]] + Split(s, sep)[1..]
  {
    assert ([c] + s)[1..] == s;
  }

  /** Splitting distributes over a separator: the pieces of `a` come first,
      then those of `b`. */
  lemma {:induction false} SplitAround(a: string, sep: char, b: string)
    ensures Split(a + [sep] + b, sep) == Split(a, sep) + Split(b, sep)
  {
    if a == [] {
      assert ([] + [sep] + b)[1..] == b;
    } else {
      assert (a + [sep] + b)[1..] == a[1..] + [sep] + b;
      SplitAround(a[1..], sep, b);
    }
  }

  /** A string without the separator is a single piece. */
  lemma {:induction false} SplitWithoutSeparator(s: string, sep: char)
    requires sep !in s
    ensures Split(s, sep) == [s]
  {
    if s != [] {
      SplitWithoutSeparator(s[1..], sep);
      assert [s[0]] + s[1..] == s;
    }
  }

  /** `Split` undoes `Join` whenever no piece contains the separator. */
  lemma {:induction false} SplitJoin(parts: seq<string>, sep: char)
    requires |parts| >= 1
    requires forall p :: p in parts ==> sep !in p
    ensures Split(Join(parts, sep), sep) == parts
  {
    SplitWithoutSeparator(parts[0], sep);
    if |parts| > 1 {
      SplitJoin(parts[1..], sep);
      SplitAround(parts[0], sep, Join(parts[1..], sep));
      assert parts == [parts[0]] + parts[1..];
    }
  }
}
