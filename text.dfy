/** Python's `str.split(sep)` for a non-empty separator: the string is cut at
    every occurrence of `sep`, scanning left to right without overlap, and the
    pieces between the cuts are returned (always at least one piece). */
module Text {
  import opened Options

  /** `sep` occurs in `s` starting at index `i`. */
  ghost predicate OccursAt(s: string, sep: string, i: nat) {
    i + |sep| <= |s| && s[i..i + |sep|] == sep
  }

  /** `sep` occurs somewhere in `s` (Python's `sep in s`). */
  ghost predicate Contains(s: string, sep: string) {
    exists i: nat :: OccursAt(s, sep, i)
  }

  /** The pieces glued back together with `sep` between neighbours
      (Python's `sep.join(parts)`). */
  function Join(parts: seq<string>, sep: string): string {
    if |parts| == 0 then ""
    else if |parts| == 1 then parts[0]
    else parts[0] + sep + Join(parts[1..], sep)
  }

  /** Python's `s.find(sep)`: the leftmost occurrence of `sep`, if any. */
  function Find(s: string, sep: string): (r: Option<nat>)
    requires |sep| > 0
    ensures r.Some? ==> OccursAt(s, sep, r.value)
    ensures r.Some? ==> forall j: nat :: j < r.value ==> !OccursAt(s, sep, j)
    ensures r.None? <==> !Contains(s, sep)
    decreases |s|
  {
    if |s| < |sep| then None
    else if s[..|sep|] == sep then Some(0)
    else
      OccursShift(s, sep);
      match Find(s[1..], sep)
      case None => None
      case Some(i) => Some(i + 1)
  }

  /** An occurrence in `s[1..]` is an occurrence in `s`, one place later. */
  lemma OccursShift(s: string, sep: string)
    requires |s| > 0
    ensures forall i: nat :: OccursAt(s[1..], sep, i) <==> OccursAt(s, sep, i + 1)
    ensures forall i: nat :: 1 <= i ==> (OccursAt(s, sep, i) <==> OccursAt(s[1..], sep, i - 1))
  {
  }

  /** Python's `s.split(sep)`. */
  function Split(s: string, sep: string): (parts: seq<string>)
    requires |sep| > 0
    ensures |parts| >= 1
    ensures Join(parts, sep) == s
    ensures forall k :: 0 <= k < |parts| ==> !Contains(parts[k], sep)
    decreases |s|
  {
    match Find(s, sep)
    case None => [s]
    case Some(i) =>
      var rest := Split(s[i + |sep|..], sep);
      assert s == s[..i] + sep + s[i + |sep|..];
      PrefixBeforeFirst(s, sep, i);
      [s[..i]] + rest
  }

  /** The text before the first occurrence of `sep` does not contain `sep`. */
  lemma PrefixBeforeFirst(s: string, sep: string, i: nat)
    requires |sep| > 0 && i <= |s|
    requires forall j: nat :: j < i ==> !OccursAt(s, sep, j)
    ensures !Contains(s[..i], sep)
  {
    forall j: nat | OccursAt(s[..i], sep, j)
      ensures false
    {
      assert s[..i][j..j + |sep|] == s[j..j + |sep|];
      assert OccursAt(s, sep, j);
    }
  }

  /** With no occurrence of `sep`, the whole string is the only piece. */
  lemma SplitWithout(s: string, sep: string)
    requires |sep| > 0
    requires !Contains(s, sep)
    ensures Split(s, sep) == [s]
  {
  }

  /** When no occurrence of `sep` starts inside `a`, splitting `a + sep + rest`
      cuts first right after `a`. */
  lemma SplitAfter(a: string, sep: string, rest: string)
    requires |sep| > 0
    requires forall j: nat :: j < |a| ==> !OccursAt(a + sep + rest, sep, j)
    ensures Split(a + sep + rest, sep) == [a] + Split(rest, sep)
  {
    var s := a + sep + rest;
    assert s[|a|..|a| + |sep|] == sep;
    assert OccursAt(s, sep, |a|);
    var i := Find(s, sep).value;
    assert i == |a|;
    assert s[..i] == a;
    assert s[i + |sep|..] == rest;
  }

  /** A string lacking one of the characters of `sep` does not contain `sep`. */
  lemma MissingChar(s: string, sep: string, k: nat)
    requires k < |sep|
    requires sep[k] !in s
    ensures !Contains(s, sep)
  {
  }

  /** Splitting on a single character undoes joining on it, when no piece
      holds that character. */
  lemma {:induction false} SplitJoin(parts: seq<string>, c: char)
    requires |parts| >= 1
    requires forall k :: 0 <= k < |parts| ==> c !in parts[k]
    ensures Split(Join(parts, [c]), [c]) == parts
  {
    if |parts| == 1 {
      MissingChar(parts[0], [c], 0);
      SplitWithout(parts[0], [c]);
    } else {
      var a, rest := parts[0], Join(parts[1..], [c]);
      forall j: nat | j < |a|
        ensures !OccursAt(a + [c] + rest, [c], j)
      {
        assert (a + [c] + rest)[j..j + 1] == [a[j]];
      }
      SplitAfter(a, [c], rest);
      SplitJoin(parts[1..], c);
      assert parts == [a] + parts[1..];
    }
  }
}
