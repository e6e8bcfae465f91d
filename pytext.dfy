/**
 * The Python `str` operations the proxy uses to build upstream URLs:
 * `split` on a one-character separator and `replace`.
 */
module PyText {
  import opened Strings

  /** Position of the first occurrence of `c` in `s`. */
  function IndexOf(s: string, c: char): (i: nat)
    requires c in s
    ensures i < |s| && s[i] == c
    ensures c !in s[..i]
  {
    if s[0] == c then 0
    else
      var j := IndexOf(s[1..], c);
      assert s[..j + 1] == [s[0]] + s[1..][..j];
      j + 1
  }

  /** A position holding `c` with no `c` before it is the first occurrence. */
  lemma IndexOfFirst(s: string, c: char, i: nat)
    requires i < |s| && s[i] == c && c !in s[..i]
    ensures IndexOf(s, c) == i
  {
  }

  /** `s.split(sep)`: the pieces between occurrences of `sep`, left to right. */
  function Split(s: string, sep: char): (parts: seq<string>)
    ensures |parts| >= 1
    ensures forall k :: 0 <= k < |parts| ==> sep !in parts[k]
    decreases |s|
  {
    if sep !in s then [s]
    else
      var i := IndexOf(s, sep);
      [s[..i]] + Split(s[i + 1..], sep)
  }

  /**
   * Splitting a separator-free piece, the separator and a rest: the piece
   * comes first, then the split of the rest.
   */
  lemma SplitPrepend(first: string, sep: char, rest: string)
    requires sep !in first
    ensures Split(first + [sep] + rest, sep) == [first] + Split(rest, sep)
  {
    var s := first + [sep] + rest;
    var i := |first|;
    assert s[i] == sep && s[..i] == first && s[i + 1..] == rest;
    IndexOfFirst(s, sep, i);
  }

  /** `sep.join(parts)`. */
  function Join(parts: seq<string>, sep: char): string
    requires |parts| >= 1
  {
    if |parts| == 1 then parts[0] else parts[0] + [sep] + Join(parts[1..], sep)
  }

  /** Joining the pieces of a split gives back the original string. */
  lemma {:induction false} JoinSplit(s: string, sep: char)
    ensures Join(Split(s, sep), sep) == s
    decreases |s|
  {
    if sep in s {
      var i := IndexOf(s, sep);
      var rest := s[i + 1..];
      var tail := Split(rest, sep);
      var parts := Split(s, sep);
      assert parts == [s[..i]] + tail;
      assert parts[0] == s[..i] && parts[1..] == tail && |parts| > 1;
      JoinSplit(rest, sep);
      assert Join(parts, sep) == s[..i] + [sep] + Join(tail, sep);
      assert s == s[..i] + [sep] + rest;
    }
  }

  /** Splitting a join of separator-free pieces gives back the pieces. */
  lemma {:induction false} SplitJoin(parts: seq<string>, sep: char)
    requires |parts| >= 1
    requires forall k :: 0 <= k < |parts| ==> sep !in parts[k]
    ensures Split(Join(parts, sep), sep) == parts
    decreases |parts|
  {
    if |parts| > 1 {
      var tail := parts[1..];
      assert forall k :: 0 <= k < |tail| ==> sep !in tail[k] by {
        forall k | 0 <= k < |tail| ensures sep !in tail[k] {
          assert tail[k] == parts[k + 1];
        }
      }
      SplitJoin(tail, sep);
      SplitPrepend(parts[0], sep, Join(tail, sep));
      calc {
        Split(Join(parts, sep), sep);
        Split(parts[0] + [sep] + Join(tail, sep), sep);
        [parts[0]] + Split(Join(tail, sep), sep);
        [parts[0]] + tail;
        parts;
      }
    }
  }

  /** `replacement` before every character of `s` and once more at the end. */
  function InsertEverywhere(s: string, replacement: string): string
  {
    if s == [] then replacement
    else replacement + [s[0]] + InsertEverywhere(s[1..], replacement)
  }

  /**
   * `s.replace(target, replacement)`: non-overlapping occurrences, found left
   * to right, are replaced; an empty target matches at every position.
   */
  function Replace(s: string, target: string, replacement: string): (r: string)
    ensures target == replacement ==> r == s
    ensures |target| > 0 && !Contains(s, target) ==> r == s
    decreases |s|
  {
    if |target| == 0 then
      InsertNothing(s);
      InsertEverywhere(s, replacement)
    else if StartsWith(s, target) then
      assert s == s[..|target|] + s[|target|..];
      replacement + Replace(s[|target|..], target, replacement)
    else if |s| == 0 then ""
    else
      assert s == [s[0]] + s[1..];
      [s[0]] + Replace(s[1..], target, replacement)
  }

  /** With an empty replacement the empty pattern changes nothing. */
  lemma {:induction false} InsertNothing(s: string)
    ensures InsertEverywhere(s, "") == s
  {
    if s != [] {
      InsertNothing(s[1..]);
      assert s == [s[0]] + s[1..];
    }
  }
}
