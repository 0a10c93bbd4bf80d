/** The string operations the image field uses on a data URI:
    `str.startswith` and `str.split(sep)` with a non-empty separator. */
module Text {
  import opened Common

  predicate StartsWith(s: string, prefix: string) {
    |prefix| <= |s| && s[..|prefix|] == prefix
  }

  /** `sep` occurs in `s` starting at position `i`. */
  predicate OccursAt(s: string, sep: string, i: int) {
    0 <= i && i + |sep| <= |s| && s[i..i + |sep|] == sep
  }

  predicate Contains(s: string, sep: string) {
    exists i | 0 <= i <= |s| :: OccursAt(s, sep, i)
  }

  /** The leftmost occurrence of `sep` in `s` at or after `from`. */
  function FindFrom(s: string, sep: string, from: nat): (r: Option<nat>)
    requires from <= |s|
    ensures r.Some? ==> from <= r.value && OccursAt(s, sep, r.value)
    ensures forall j :: from <= j && (r.None? || j < r.value) ==> !OccursAt(s, sep, j)
    decreases |s| - from
  {
    if from + |sep| > |s| then None
    else if s[from..from + |sep|] == sep then Some(from)
    else if from == |s| then None
    else FindFrom(s, sep, from + 1)
  }

  /** FindFrom from the start finds an occurrence that has none before it. */
  lemma FindsFirst(s: string, sep: string, k: nat)
    requires |sep| > 0 && OccursAt(s, sep, k)
    requires forall j :: 0 <= j < k ==> s[j] != sep[0]
    ensures FindFrom(s, sep, 0) == Some(k)
  {
    forall j | 0 <= j < k ensures !OccursAt(s, sep, j) {
      if j + |sep| <= |s| {
        assert s[j..j + |sep|][0] == s[j];
      }
    }
  }

  /** FindFrom finds nothing in a string without the separator's first character. */
  lemma FindsNone(s: string, sep: string)
    requires |sep| > 0
    requires forall j :: 0 <= j < |s| ==> s[j] != sep[0]
    ensures FindFrom(s, sep, 0) == None
  {
    forall j | 0 <= j < |s| ensures !OccursAt(s, sep, j) {
      if j + |sep| <= |s| {
        assert s[j..j + |sep|][0] == s[j];
      }
    }
  }

  /** `s.split(sep)`: the pieces between the non-overlapping occurrences of
      `sep`, found left to right. No piece contains `sep`. */
  function Split(s: string, sep: string): (parts: seq<string>)
    requires |sep| > 0
    ensures |parts| >= 1
    ensures forall i :: 0 <= i < |parts| ==> !Contains(parts[i], sep)
    decreases |s|
  {
    match FindFrom(s, sep, 0)
    case None => [s]
    case Some(k) =>
      var head := s[..k];
      assert !Contains(head, sep) by {
        forall i | OccursAt(head, sep, i) ensures false {
          assert s[i..i + |sep|] == head[i..i + |sep|];
          assert OccursAt(s, sep, i) && i < k;
        }
      }
      [head] + Split(s[k + |sep|..], sep)
  }

  /** Text around one separator, with the separator's first character in
      neither piece, splits into exactly those two pieces. */
  lemma SplitPair(a: string, sep: string, b: string)
    requires |sep| > 0
    requires forall j :: 0 <= j < |a| ==> a[j] != sep[0]
    requires forall j :: 0 <= j < |b| ==> b[j] != sep[0]
    ensures Split(a + sep + b, sep) == [a, b]
  {
    var s := a + sep + b;
    assert s[|a|..|a| + |sep|] == sep;
    forall j | 0 <= j < |a| ensures s[j] != sep[0] {
      assert s[j] == a[j];
    }
    FindsFirst(s, sep, |a|);
    assert s[..|a|] == a && s[|a| + |sep|..] == b;
    FindsNone(b, sep);
  }

  /** `sep.join(parts)`. */
  function Join(parts: seq<string>, sep: string): string {
    if |parts| == 0 then ""
    else if |parts| == 1 then parts[0]
    else parts[0] + sep + Join(parts[1..], sep)
  }

  /** Joining the pieces of a split with the same separator gives back the string. */
  lemma {:induction false} JoinSplit(s: string, sep: string)
    requires |sep| > 0
    ensures Join(Split(s, sep), sep) == s
    decreases |s|
  {
    var found := FindFrom(s, sep, 0);
    if found.Some? {
      var k := found.value;
      var rest := s[k + |sep|..];
      var parts := Split(s, sep);
      assert parts == [s[..k]] + Split(rest, sep);
      JoinSplit(rest, sep);
      assert parts[1..] == Split(rest, sep);
      calc {
        Join(parts, sep);
        s[..k] + sep + Join(Split(rest, sep), sep);
        s[..k] + s[k..k + |sep|] + rest;
        s;
      }
    }
  }

  /** Joining `parts` equals joining all but the last piece, then `sep`, then the last piece. */
  lemma {:induction false} JoinLast(parts: seq<string>, sep: string)
    requires |parts| >= 2
    ensures Join(parts, sep) == Join(parts[..|parts| - 1], sep) + sep + parts[|parts| - 1]
    decreases |parts|
  {
    if |parts| > 2 {
      JoinLast(parts[1..], sep);
      assert parts[1..][..|parts| - 2] == parts[..|parts| - 1][1..];
    }
  }

  function Last(parts: seq<string>): string
    requires |parts| > 0
  {
    parts[|parts| - 1]
  }

  /** `s.split(sep)[-1]` is the text after the last `sep` of `s`: a suffix of
      `s` that holds no `sep`, and either all of `s` or preceded by `sep`. */
  lemma AfterLastSeparator(s: string, sep: string)
    requires |sep| > 0
    ensures var tail := Last(Split(s, sep));
      && !Contains(tail, sep)
      && (|Split(s, sep)| == 1 ==> tail == s)
      && (|Split(s, sep)| > 1 ==> exists front :: s == front + sep + tail)
  {
    var parts := Split(s, sep);
    JoinSplit(s, sep);
    if |parts| > 1 {
      JoinLast(parts, sep);
      var front := Join(parts[..|parts| - 1], sep);
      assert s == front + sep + Last(parts);
    }
  }
}
